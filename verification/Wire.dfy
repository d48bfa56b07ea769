/** Layouts of the 48-byte URB headers (usbip/src/wire.rs): big-endian words followed by a raw tail. */
module Wire {
  import opened Bytes

  const HEADER_LEN: nat := 48

  type Setup = s: seq<byte> | |s| == 8 witness [0, 0, 0, 0, 0, 0, 0, 0]
  type Pad8 = s: seq<byte> | |s| == 8 witness [0, 0, 0, 0, 0, 0, 0, 0]
  type Pad24 = s: seq<byte> | |s| == 24 witness seq(24, _ => 0)

  datatype CmdSubmitHeader = CmdSubmitHeader(
    command: u32, seqnum: u32, devid: u32, direction: u32, ep: u32, transferFlags: u32,
    transferBufferLength: u32, startFrame: u32, numberOfPackets: u32, interval: u32, setup: Setup)
  {
    function Fields(): seq<u32> {
      [command, seqnum, devid, direction, ep, transferFlags, transferBufferLength, startFrame,
       numberOfPackets, interval]
    }
    function AsBytes(): (bs: seq<byte>)
      ensures |bs| == HEADER_LEN
    {
      Words(Fields()) + setup
    }
  }

  datatype CmdUnlinkHeader = CmdUnlinkHeader(
    command: u32, seqnum: u32, devid: u32, direction: u32, ep: u32, unlinkSeqnum: u32, padding: Pad24)
  {
    function Fields(): seq<u32> { [command, seqnum, devid, direction, ep, unlinkSeqnum] }
    function AsBytes(): (bs: seq<byte>)
      ensures |bs| == HEADER_LEN
    {
      Words(Fields()) + padding
    }
  }

  datatype RetSubmitHeader = RetSubmitHeader(
    command: u32, seqnum: u32, devid: u32, direction: u32, ep: u32, status: i32, actualLength: u32,
    startFrame: u32, numberOfPackets: u32, errorCount: u32, padding: Pad8)
  {
    function Fields(): seq<u32> {
      [command, seqnum, devid, direction, ep, WordOfI32(status), actualLength, startFrame,
       numberOfPackets, errorCount]
    }
    function AsBytes(): (bs: seq<byte>)
      ensures |bs| == HEADER_LEN
    {
      Words(Fields()) + padding
    }
  }

  datatype RetUnlinkHeader = RetUnlinkHeader(
    command: u32, seqnum: u32, devid: u32, direction: u32, ep: u32, status: i32, padding: Pad24)
  {
    function Fields(): seq<u32> { [command, seqnum, devid, direction, ep, WordOfI32(status)] }
    function AsBytes(): (bs: seq<byte>)
      ensures |bs| == HEADER_LEN
    {
      Words(Fields()) + padding
    }
  }

  // --- Overlaying a header on the first 48 bytes of a buffer ---

  function CmdSubmitFrom(bs: seq<byte>): CmdSubmitHeader
    requires |bs| >= HEADER_LEN
  {
    CmdSubmitHeader(U32At(bs, 0), U32At(bs, 4), U32At(bs, 8), U32At(bs, 12), U32At(bs, 16),
                    U32At(bs, 20), U32At(bs, 24), U32At(bs, 28), U32At(bs, 32), U32At(bs, 36), bs[40..48])
  }

  function CmdUnlinkFrom(bs: seq<byte>): CmdUnlinkHeader
    requires |bs| >= HEADER_LEN
  {
    CmdUnlinkHeader(U32At(bs, 0), U32At(bs, 4), U32At(bs, 8), U32At(bs, 12), U32At(bs, 16),
                    U32At(bs, 20), bs[24..48])
  }

  function RetSubmitFrom(bs: seq<byte>): RetSubmitHeader
    requires |bs| >= HEADER_LEN
  {
    RetSubmitHeader(U32At(bs, 0), U32At(bs, 4), U32At(bs, 8), U32At(bs, 12), U32At(bs, 16),
                    I32OfWord(U32At(bs, 20)), U32At(bs, 24), U32At(bs, 28), U32At(bs, 32),
                    U32At(bs, 36), bs[40..48])
  }

  function RetUnlinkFrom(bs: seq<byte>): RetUnlinkHeader
    requires |bs| >= HEADER_LEN
  {
    RetUnlinkHeader(U32At(bs, 0), U32At(bs, 4), U32At(bs, 8), U32At(bs, 12), U32At(bs, 16),
                    I32OfWord(U32At(bs, 20)), bs[24..48])
  }

  // --- Each layout is a bijection between header values and 48-byte strings ---

  lemma FieldsAt(ws: seq<u32>, tail: seq<byte>, rest: seq<byte>)
    ensures forall i {:trigger ws[i]} | 0 <= i < |ws| :: U32At(Words(ws) + tail + rest, 4 * i) == ws[i]
    ensures (Words(ws) + tail + rest)[4 * |ws|..4 * |ws| + |tail|] == tail
  {
    Associative(Words(ws), tail, rest);
    hide Words, U32At;
    forall i | 0 <= i < |ws|
      ensures U32At(Words(ws) + tail + rest, 4 * i) == ws[i]
    {
      WordAt(ws, tail + rest, i);
    }
  }

  lemma CmdSubmitOverlay(h: CmdSubmitHeader, rest: seq<byte>)
    ensures CmdSubmitFrom(h.AsBytes() + rest) == h
  {
    var ws := h.Fields();
    FieldsAt(ws, h.setup, rest);
    assert ws[0] == h.command && ws[1] == h.seqnum && ws[2] == h.devid && ws[3] == h.direction && ws[4] == h.ep;
    assert ws[5] == h.transferFlags && ws[6] == h.transferBufferLength && ws[7] == h.startFrame;
    assert ws[8] == h.numberOfPackets && ws[9] == h.interval;
  }

  lemma CmdUnlinkOverlay(h: CmdUnlinkHeader, rest: seq<byte>)
    ensures CmdUnlinkFrom(h.AsBytes() + rest) == h
  {
    var ws := h.Fields();
    FieldsAt(ws, h.padding, rest);
    assert ws[0] == h.command && ws[1] == h.seqnum && ws[2] == h.devid;
    assert ws[3] == h.direction && ws[4] == h.ep && ws[5] == h.unlinkSeqnum;
  }

  lemma RetSubmitOverlay(h: RetSubmitHeader, rest: seq<byte>)
    ensures RetSubmitFrom(h.AsBytes() + rest) == h
  {
    var ws := h.Fields();
    FieldsAt(ws, h.padding, rest);
    assert ws[0] == h.command && ws[1] == h.seqnum && ws[2] == h.devid && ws[3] == h.direction && ws[4] == h.ep;
    assert ws[5] == WordOfI32(h.status) && ws[6] == h.actualLength && ws[7] == h.startFrame;
    assert ws[8] == h.numberOfPackets && ws[9] == h.errorCount;
  }

  lemma RetUnlinkOverlay(h: RetUnlinkHeader, rest: seq<byte>)
    ensures RetUnlinkFrom(h.AsBytes() + rest) == h
  {
    var ws := h.Fields();
    FieldsAt(ws, h.padding, rest);
    assert ws[0] == h.command && ws[1] == h.seqnum && ws[2] == h.devid;
    assert ws[3] == h.direction && ws[4] == h.ep && ws[5] == WordOfI32(h.status);
  }

  lemma HeaderSplit(bs: seq<byte>, words: nat)
    requires |bs| == HEADER_LEN && 4 * words <= HEADER_LEN
    ensures bs == Words(seq(words, i requires 0 <= i < words => U32At(bs, 4 * i))) + bs[4 * words..]
  {
    var front := bs[..4 * words];
    WordsOf(front, words);
    assert seq(words, i requires 0 <= i < words => U32At(bs, 4 * i))
        == seq(words, i requires 0 <= i < words => U32At(front, 4 * i));
  }

  lemma RetSubmitBytes(bs: seq<byte>)
    requires |bs| == HEADER_LEN
    ensures RetSubmitFrom(bs).AsBytes() == bs
  {
    HeaderSplit(bs, 10);
    assert RetSubmitFrom(bs).Fields() == seq(10, i requires 0 <= i < 10 => U32At(bs, 4 * i));
  }

  lemma RetUnlinkBytes(bs: seq<byte>)
    requires |bs| == HEADER_LEN
    ensures RetUnlinkFrom(bs).AsBytes() == bs
  {
    HeaderSplit(bs, 6);
    assert RetUnlinkFrom(bs).Fields() == seq(6, i requires 0 <= i < 6 => U32At(bs, 4 * i));
  }

  // --- The examples in the protocol's description ---

  /** An interrupt IN submission. */
  const CMD_INTR_IN: seq<byte> :=
    [0x00, 0x00, 0x00, 0x01] + [0x00, 0x00, 0x0d, 0x05] + [0x00, 0x01, 0x00, 0x0f] + [0x00, 0x00, 0x00, 0x01]
    + [0x00, 0x00, 0x00, 0x01] + [0x00, 0x00, 0x02, 0x00] + [0x00, 0x00, 0x00, 0x40] + [0xff, 0xff, 0xff, 0xff]
    + [0x00, 0x00, 0x00, 0x00] + [0x00, 0x00, 0x00, 0x04] + [0, 0, 0, 0, 0, 0, 0, 0]

  /** The response to an interrupt OUT submission. */
  const RET_INTR_OUT: seq<byte> :=
    [0x00, 0x00, 0x00, 0x03] + [0x00, 0x00, 0x0d, 0x06] + [0x00, 0x00, 0x00, 0x00] + [0x00, 0x00, 0x00, 0x00]
    + [0x00, 0x00, 0x00, 0x00] + [0x00, 0x00, 0x00, 0x00] + [0x00, 0x00, 0x00, 0x40] + [0xff, 0xff, 0xff, 0xff]
    + [0x00, 0x00, 0x00, 0x00] + [0x00, 0x00, 0x00, 0x00] + [0, 0, 0, 0, 0, 0, 0, 0]

  lemma KnownCmdSubmit()
    ensures CmdSubmitFrom(CMD_INTR_IN)
         == CmdSubmitHeader(1, 0x0d05, 0x1_000f, 1, 1, 0x200, 64, 0xffff_ffff, 0, 4, [0, 0, 0, 0, 0, 0, 0, 0])
  {
    var bs := CMD_INTR_IN;
    assert bs[40..48] == [0, 0, 0, 0, 0, 0, 0, 0];
    assert U32At(bs, 0) == 1 && U32At(bs, 4) == 0x0d05 && U32At(bs, 8) == 0x1_000f && U32At(bs, 12) == 1;
    assert U32At(bs, 16) == 1 && U32At(bs, 20) == 0x200 && U32At(bs, 24) == 64 && U32At(bs, 28) == 0xffff_ffff;
    assert U32At(bs, 32) == 0 && U32At(bs, 36) == 4;
  }

  lemma KnownRetSubmit()
    ensures RetSubmitFrom(RET_INTR_OUT)
         == RetSubmitHeader(3, 0x0d06, 0, 0, 0, 0, 64, 0xffff_ffff, 0, 0, [0, 0, 0, 0, 0, 0, 0, 0])
  {
    var bs := RET_INTR_OUT;
    assert bs[40..48] == [0, 0, 0, 0, 0, 0, 0, 0];
    assert U32At(bs, 0) == 3 && U32At(bs, 4) == 0x0d06 && U32At(bs, 8) == 0 && U32At(bs, 12) == 0;
    assert U32At(bs, 16) == 0 && U32At(bs, 20) == 0 && U32At(bs, 24) == 64 && U32At(bs, 28) == 0xffff_ffff;
    assert U32At(bs, 32) == 0 && U32At(bs, 36) == 0;
  }
}
