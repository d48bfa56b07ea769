/** The I/O buffers handed to the raw-gadget driver (rawgadget/src/device.rs). The kernel is a parameter
    of each call: what it returns and, for reads, what it leaves in the buffer. */
module Gadget {
  import opened Bytes

  const HEADER_SIZE: nat := 8
  const EP0_BUF_SIZE: nat := 512

  /** What the driver finds in the memory it is given. */
  datatype Io = Io(ep: u16, flags: u16, data: seq<byte>)

  function HeaderBytes(ep: u16, length: u32): (bs: seq<byte>)
    ensures |bs| == HEADER_SIZE
  {
    Le16(ep) + Le16(0) + Le32(length)
  }

  /** The driver's reading of a buffer: the header, then as many bytes as it announces. */
  function IoOf(mem: seq<byte>): Option<Io> {
    if |mem| < HEADER_SIZE || HEADER_SIZE + U32LeAt(mem, 4) > |mem| then None
    else Some(Io(U16LeAt(mem, 0), U16LeAt(mem, 2), mem[HEADER_SIZE..HEADER_SIZE + U32LeAt(mem, 4)]))
  }

  lemma HeaderReadsBack(ep: u16, length: u32, rest: seq<byte>)
    ensures var mem := HeaderBytes(ep, length) + rest;
            U16LeAt(mem, 0) == ep && U16LeAt(mem, 2) == 0 && U32LeAt(mem, 4) == length && mem[HEADER_SIZE..] == rest
  {
    var mem := HeaderBytes(ep, length) + rest;
    var l := Le32(length);
    assert mem[0] == Le16(ep)[0] && mem[1] == Le16(ep)[1] && mem[2] == 0 && mem[3] == 0;
    assert mem[4] == l[0] && mem[5] == l[1] && mem[6] == l[2] && mem[7] == l[3];
    Digits(length);
  }

  /** The header byte by byte: the endpoint's handle, no flags, and the length, all with the low byte first. */
  lemma HeaderLayout(ep: u32, length: u32)
    ensures HeaderBytes(ep % 0x1_0000, length)
         == [ep % 0x100, ep / 0x100 % 0x100, 0, 0,
             length % 0x100, length / 0x100 % 0x100, length / 0x1_0000 % 0x100, length / 0x100_0000]
  {
    var low := ep % 0x1_0000;
    assert ep == ep / 0x1_0000 * 0x1_0000 + low;
    assert low % 0x100 == ep % 0x100 && low / 0x100 == ep / 0x100 % 0x100;
  }

  /** Header, data and any padding are read by the driver as exactly that data. */
  lemma IoRoundTrip(ep: u16, data: seq<byte>, padding: seq<byte>)
    requires |data| <= U32_MAX
    ensures IoOf(HeaderBytes(ep, |data|) + data + padding) == Some(Io(ep, 0, data))
  {
    Associative(HeaderBytes(ep, |data|), data, padding);
    HeaderReadsBack(ep, |data|, data + padding);
    assert (data + padding)[..|data|] == data;
    assert (HeaderBytes(ep, |data|) + (data + padding))[HEADER_SIZE..HEADER_SIZE + |data|]
        == (data + padding)[..|data|];
  }

  lemma RoundedUp(n: nat)
    ensures n <= 4 * ((n + 3) / 4) < n + 4
    ensures 4 * ((n + 3) / 4) % 4 == 0
  {}

  /** A header and data in memory allocated as whole 32-bit words. */
  class EpIoBuf {
    const mem: array<byte>

    /** The words cover header and data and waste less than one word. Handle and length are truncated to
        the widths of their fields. */
    constructor (ep: u32, dataLen: nat)
      ensures fresh(mem)
      ensures HEADER_SIZE + dataLen <= mem.Length < HEADER_SIZE + dataLen + 4 && mem.Length % 4 == 0
      ensures mem[..] == HeaderBytes(ep % 0x1_0000, dataLen % 0x1_0000_0000) + Zeros(mem.Length - HEADER_SIZE)
    {
      var total := HEADER_SIZE + dataLen;
      var count := (total + 3) / 4;
      RoundedUp(total);
      var buf := new byte[4 * count](_ => 0);
      mem := buf;
      new;
      hide HeaderBytes;
      var header := HeaderBytes(ep % 0x1_0000, dataLen % 0x1_0000_0000);
      forall i | 0 <= i < HEADER_SIZE {
        buf[i] := header[i];
      }
      assert forall i | HEADER_SIZE <= i < buf.Length :: buf[i] == 0;
      assert buf[..HEADER_SIZE] == header;
      assert buf[..] == header + Zeros(buf.Length - HEADER_SIZE);
    }
  }

  /** Sends `data` to an endpoint; `shown` is the memory the driver was given. Lengths from 2^32 on make
      the slice of the data area panic. */
  method EpWrite(ep: u32, data: seq<byte>, kernel: Option<nat>) returns (result: Option<nat>, shown: seq<byte>)
    requires |data| <= U32_MAX
    ensures IoOf(shown) == Some(Io(ep % 0x1_0000, 0, data))
    ensures |shown| >= 8 + |data| && shown[8..8 + |data|] == data
    ensures shown[..8] == [ep % 0x100, ep / 0x100 % 0x100, 0, 0,
                           |data| % 0x100, |data| / 0x100 % 0x100, |data| / 0x1_0000 % 0x100, |data| / 0x100_0000]
    ensures |shown| % 4 == 0 && |shown| < HEADER_SIZE + |data| + 4
    ensures result == kernel
  {
    hide HeaderBytes, IoOf;
    var io := new EpIoBuf(ep, |data|);
    ghost var header, padding := HeaderBytes(ep % 0x1_0000, |data|), Zeros(io.mem.Length - HEADER_SIZE - |data|);
    forall i | 0 <= i < |data| {
      io.mem[HEADER_SIZE + i] := data[i];
    }
    assert io.mem[..] == header + data + padding;
    assert io.mem[..8] == header;
    HeaderLayout(ep, |data|);
    IoRoundTrip(ep % 0x1_0000, data, padding);
    return kernel, io.mem[..];
  }

  /** A header in front of zeros asks for as many bytes as it announces. */
  lemma ZerosAreAsked(ep: u16, length: u32, room: nat)
    requires length <= room
    ensures IoOf(HeaderBytes(ep, length) + Zeros(room)) == Some(Io(ep, 0, Zeros(length)))
  {
    IoRoundTrip(ep, Zeros(length), Zeros(room - length));
    hide IoOf, HeaderBytes;
    assert Zeros(length) + Zeros(room - length) == Zeros(room);
    Associative(HeaderBytes(ep, length), Zeros(length), Zeros(room - length));
  }

  /** What the driver does with a read: the bytes it stores in the data area, and its return value. */
  datatype KernelRead = KernelRead(stored: seq<byte>, transferred: nat)

  /** The caller's bytes after a read of `length` bytes. */
  function Received(k: KernelRead, length: nat): (bs: seq<byte>)
    requires |k.stored| <= length
    ensures |bs| == Min(k.transferred, length)
    ensures forall i | 0 <= i < |bs| :: bs[i] == if i < |k.stored| then k.stored[i] else 0
  {
    (k.stored + Zeros(length - |k.stored|))[..Min(k.transferred, length)]
  }

  /** Asks the endpoint for as many bytes as the caller's buffer takes; `asked` is the memory the driver was
      given. Copies exactly min(transferred, length) bytes of what it stored, and leaves the rest of the
      caller's buffer as it was. */
  method EpRead(ep: u32, buf: array<byte>, kernel: Option<KernelRead>) returns (result: Option<nat>, asked: seq<byte>)
    requires buf.Length <= U32_MAX && (kernel.Some? ==> |kernel.value.stored| <= buf.Length)
    modifies buf
    ensures IoOf(asked) == Some(Io(ep % 0x1_0000, 0, Zeros(buf.Length)))
    ensures kernel.None? ==> result == None && buf[..] == old(buf[..])
    ensures kernel.Some? ==>
              var k := kernel.value;
              && result == Some(if k.transferred < buf.Length then k.transferred else buf.Length)
              && (forall i | 0 <= i < result.value && i < |k.stored| :: buf[i] == k.stored[i])
              && (forall i | |k.stored| <= i < result.value :: buf[i] == 0)
              && (forall i | result.value <= i < buf.Length :: buf[i] == old(buf[i]))
  {
    hide IoOf, HeaderBytes;
    var io := new EpIoBuf(ep, buf.Length);
    asked := io.mem[..];
    ZerosAreAsked(ep % 0x1_0000, buf.Length, io.mem.Length - HEADER_SIZE);
    if kernel.None? {
      return None, asked;
    }
    var k := kernel.value;
    assert forall j | HEADER_SIZE <= j < io.mem.Length :: io.mem[..][j] == 0;
    forall i | 0 <= i < |k.stored| {
      io.mem[HEADER_SIZE + i] := k.stored[i];
    }
    var n := Min(k.transferred, buf.Length);
    forall i | 0 <= i < n {
      buf[i] := io.mem[HEADER_SIZE + i];
    }
    return Some(n), asked;
  }

  /** Endpoint 0 uses a buffer of fixed size: more data than it holds is refused before the driver is asked. */
  method Ep0Write(data: seq<byte>, kernel: Option<nat>) returns (result: Option<nat>, shown: Option<seq<byte>>)
    ensures shown.Some? <==> |data| <= 512
    ensures shown.Some? ==> result == kernel && IoOf(shown.value) == Some(Io(0, 0, data))
    ensures shown.Some? ==> |shown.value| == 520 && shown.value[8..8 + |data|] == data
    ensures shown.None? ==> result == None
  {
    if |data| > EP0_BUF_SIZE {
      return None, None;
    }
    var mem := HeaderBytes(0, |data|) + data + Zeros(EP0_BUF_SIZE - |data|);
    IoRoundTrip(0, data, Zeros(EP0_BUF_SIZE - |data|));
    return kernel, Some(mem);
  }

  /** At most 512 bytes are read, however large the caller's buffer is. */
  method Ep0Read(buf: array<byte>, kernel: Option<KernelRead>) returns (result: Option<nat>, asked: seq<byte>)
    requires kernel.Some? ==> |kernel.value.stored| <= Min(buf.Length, 512)
    modifies buf
    ensures IoOf(asked) == Some(Io(0, 0, Zeros(Min(buf.Length, 512))))
    ensures kernel.None? ==> result == None && buf[..] == old(buf[..])
    ensures kernel.Some? ==>
              var k := kernel.value;
              && result == Some(Min(k.transferred, Min(buf.Length, 512)))
              && (forall i | 0 <= i < result.value && i < |k.stored| :: buf[i] == k.stored[i])
              && (forall i | |k.stored| <= i < result.value :: buf[i] == 0)
              && (forall i | result.value <= i < buf.Length :: buf[i] == old(buf[i]))
  {
    var len := Min(buf.Length, EP0_BUF_SIZE);
    asked := HeaderBytes(0, len) + Zeros(EP0_BUF_SIZE);
    ZerosAreAsked(0, len, EP0_BUF_SIZE);
    hide IoOf, HeaderBytes;
    if kernel.None? {
      return None, asked;
    }
    var k := kernel.value;
    var data := k.stored + Zeros(EP0_BUF_SIZE - |k.stored|);
    var n := Min(k.transferred, len);
    forall i | 0 <= i < n {
      buf[i] := data[i];
    }
    return Some(n), asked;
  }
}
