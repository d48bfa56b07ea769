/** The connection object and its split halves (usbip/src/client.rs), each method tied to the step
    functions of module Connection. */
module Client {
  import opened Bytes
  import opened Protocol
  import opened Wire
  import opened Commands
  import opened Responses
  import opened Connection

  /** A socket: unread input, delivered output, and how many bytes it will still accept. */
  class TcpStream {
    var inp: seq<byte>
    var sent: seq<byte>
    var room: nat

    constructor ()
      ensures inp == [] && sent == [] && room == 0
    {
      inp, sent, room := [], [], 0;
    }

    method WriteAll(bs: seq<byte>) returns (ok: bool)
      modifies this`sent, this`room
      ensures ok == (|bs| <= old(room))
      ensures sent == old(sent) + bs[..Min(|bs|, old(room))]
      ensures room == old(room) - Min(|bs|, old(room))
    {
      var n := Min(|bs|, room);
      ok := |bs| <= room;
      sent := sent + bs[..n];
      room := room - n;
    }

    method ReadExact(n: nat) returns (bs: Option<seq<byte>>)
      modifies this`inp
      ensures if n <= |old(inp)| then bs == Some(old(inp)[..n]) && inp == old(inp)[n..]
              else bs == None && inp == []
    {
      if n <= |inp| {
        bs := Some(inp[..n]);
        inp := inp[n..];
      } else {
        bs := None;
        inp := [];
      }
    }
  }

  /** Header, then the buffer of an OUT submission: together one write of the whole command. */
  method WriteCommand(w: TcpStream, command: Command) returns (ok: bool)
    modifies w`sent, w`room
    ensures ok == (|command.AsBytes()| <= old(w.room))
    ensures w.sent == old(w.sent) + command.AsBytes()[..Min(|command.AsBytes()|, old(w.room))]
    ensures w.room == old(w.room) - Min(|command.AsBytes()|, old(w.room))
  {
    var header := command.Header();
    ghost var all, k := command.AsBytes(), Min(|command.AsBytes()|, w.room);
    ok := w.WriteAll(header);
    if !ok {
      assert header[..k] == all[..k];
      return;
    }
    if command.call.SubmitCall? && command.call.direction.Out? && command.call.data != [] {
      ok := w.WriteAll(command.call.data);
      assert header + command.call.data[..k - HEADER_LEN] == all[..k];
    } else {
      assert header == all;
    }
  }

  method RecvUrbResponse(r: TcpStream, sh: Shared) returns (received: Received, sh': Shared)
    modifies r`inp
    ensures (received, sh', r.inp) == Recv(old(r.inp), sh)
  {
    sh' := sh;
    var header := r.ReadExact(HEADER_LEN);
    if header.None? {
      return Failure(UnexpectedEof), sh;
    }
    var buf := header.value;
    var command := U32At(buf, 0);
    if command == USBIP_RET_SUBMIT {
      var h := RetSubmitFrom(buf);
      assert h == RetSubmitFrom(old(r.inp));
      var (direction, looked) := Lookup(sh, h.seqnum);
      sh' := looked;
      if direction.None? {
        return Failure(UnknownSeqnum(h.seqnum)), sh';
      }
      var data: seq<byte> := [];
      if direction.value == In && h.actualLength > 0 {
        var payload := r.ReadExact(h.actualLength);
        if payload.None? {
          return Failure(UnexpectedEof), sh';
        }
        data := payload.value;
      }
      received := Response(Submit(RetSubmit(h.seqnum, h.status, h.actualLength, data, direction.value)));
    } else if command == USBIP_RET_UNLINK {
      var h := RetUnlinkFrom(buf);
      assert h == RetUnlinkFrom(old(r.inp));
      sh' := SettleUnlink(sh, h.seqnum, h.status);
      received := Response(Unlink(h.seqnum, h.status));
    } else {
      received := Failure(UnknownCommand(command));
    }
  }

  class UsbipConnection {
    const stream: TcpStream
    const devid: u32
    var nextSeqnum: u32
    var pending: map<u32, Direction>
    var unlinks: map<u32, u32>

    ghost function Value(): Conn
      reads this, stream
    {
      Conn(devid, nextSeqnum, Shared(pending, unlinks), stream.sent, stream.room, stream.inp)
    }

    /** A freshly imported device. */
    constructor (stream: TcpStream, devid: u32)
      ensures this.stream == stream
      ensures Value() == Conn(devid, 1, Shared(map[], map[]), stream.sent, stream.room, stream.inp)
      ensures Value().Fresh()
    {
      this.stream, this.devid, nextSeqnum := stream, devid, 1;
      pending, unlinks := map[], map[];
    }

    method AllocSeqnum() returns (seqnum: u32)
      modifies this`nextSeqnum
      ensures seqnum == old(nextSeqnum) && Value() == old(Value()).Alloc()
      ensures nextSeqnum == if seqnum == 0xffff_ffff then 0 else seqnum + 1
    {
      seqnum := nextSeqnum;
      nextSeqnum := (nextSeqnum + 1) % 0x1_0000_0000;
    }

    method SendSubmit(call: Call) returns (answer: Answer)
      requires call.SubmitCall?
      modifies this`nextSeqnum, this`pending, stream`sent, stream`room
      ensures (Value(), answer) == ConnectionStep(old(Value()), Send(call))
      ensures answer.WriteFailed? ==> pending == old(pending)
      ensures answer != WriteFailed ==>
                && answer == Allocated(old(nextSeqnum))
                && pending == old(pending)[old(nextSeqnum) := call.direction]
                && stream.sent == old(stream.sent) + Command(old(nextSeqnum), devid, call).AsBytes()
    {
      var seqnum := AllocSeqnum();
      var ok := WriteCommand(stream, Command(seqnum, devid, call));
      if !ok {
        return WriteFailed;
      }
      pending := pending[seqnum := call.direction];
      return Allocated(seqnum);
    }

    method SendUnlink(target: u32) returns (answer: Answer)
      modifies this`nextSeqnum, this`unlinks, stream`sent, stream`room
      ensures (Value(), answer) == ConnectionStep(old(Value()), Send(UnlinkCall(target)))
      ensures answer.WriteFailed? ==> unlinks == old(unlinks)
      ensures answer != WriteFailed ==>
                && answer == Allocated(old(nextSeqnum))
                && unlinks == old(unlinks)[old(nextSeqnum) := target]
                && stream.sent == old(stream.sent) + Command(old(nextSeqnum), devid, UnlinkCall(target)).AsBytes()
    {
      var seqnum := AllocSeqnum();
      var ok := WriteCommand(stream, Command(seqnum, devid, UnlinkCall(target)));
      if !ok {
        return WriteFailed;
      }
      unlinks := unlinks[seqnum := target];
      return Allocated(seqnum);
    }

    method Receive() returns (received: Received)
      modifies this`pending, this`unlinks, stream`inp
      ensures (Value(), Answer.Received(received)) == ConnectionStep(old(Value()), Op.Receive)
    {
      var sh;
      received, sh := RecvUrbResponse(stream, Shared(pending, unlinks));
      pending, unlinks := sh.pending, sh.unlinks;
    }

    /** Both halves keep the one socket and take the maps and the counter along; nothing is written. */
    method IntoSplit(cloned: bool) returns (halves: Option<(UsbipReader, UsbipWriter)>)
      ensures halves.Some? == cloned
      ensures halves.Some? ==>
                var (r, w) := halves.value;
                fresh(r) && fresh(w) && fresh(w.shared) && r.shared == w.shared && r.stream == w.stream == stream &&
                w.Value() == Value()
      ensures Value() == old(Value())
    {
      if !cloned {
        return None;
      }
      var shared := new SharedState(pending, unlinks);
      var reader := new UsbipReader(stream, shared);
      var writer := new UsbipWriter(stream, devid, nextSeqnum, shared);
      return Some((reader, writer));
    }
  }

  /** The maps behind the mutex that the two halves share. */
  class SharedState {
    var pending: map<u32, Direction>
    var unlinks: map<u32, u32>

    ghost function Value(): Shared
      reads this
    {
      Shared(pending, unlinks)
    }

    constructor (pending: map<u32, Direction>, unlinks: map<u32, u32>)
      ensures Value() == Shared(pending, unlinks)
    {
      this.pending, this.unlinks := pending, unlinks;
    }
  }

  class UsbipWriter {
    const stream: TcpStream
    const devid: u32
    var nextSeqnum: u32
    const shared: SharedState

    ghost function Value(): Conn
      reads this, stream, shared
    {
      Conn(devid, nextSeqnum, shared.Value(), stream.sent, stream.room, stream.inp)
    }

    constructor (stream: TcpStream, devid: u32, nextSeqnum: u32, shared: SharedState)
      ensures this.stream == stream && this.shared == shared
      ensures Value() == Conn(devid, nextSeqnum, shared.Value(), stream.sent, stream.room, stream.inp)
    {
      this.stream, this.devid, this.nextSeqnum, this.shared := stream, devid, nextSeqnum, shared;
    }

    method AllocSeqnum() returns (seqnum: u32)
      modifies this`nextSeqnum
      ensures seqnum == old(nextSeqnum) && Value() == old(Value()).Alloc()
      ensures nextSeqnum == if seqnum == 0xffff_ffff then 0 else seqnum + 1
    {
      seqnum := nextSeqnum;
      nextSeqnum := (nextSeqnum + 1) % 0x1_0000_0000;
    }

    method SendSubmit(call: Call) returns (answer: Answer)
      requires call.SubmitCall?
      modifies this`nextSeqnum, shared`pending, stream`sent, stream`room
      ensures (Value(), answer) == SplitStep(old(Value()), Send(call))
      ensures answer.WriteFailed? ==> shared.pending == old(shared.pending) - {old(nextSeqnum)}
      ensures answer != WriteFailed ==>
                && answer == Allocated(old(nextSeqnum))
                && shared.pending == old(shared.pending)[old(nextSeqnum) := call.direction]
                && stream.sent == old(stream.sent) + Command(old(nextSeqnum), devid, call).AsBytes()
    {
      var seqnum := AllocSeqnum();
      shared.pending := shared.pending[seqnum := call.direction];
      var ok := WriteCommand(stream, Command(seqnum, devid, call));
      if !ok {
        shared.pending := shared.pending - {seqnum};
        return WriteFailed;
      }
      return Allocated(seqnum);
    }

    method SendUnlink(target: u32) returns (answer: Answer)
      modifies this`nextSeqnum, shared`unlinks, stream`sent, stream`room
      ensures (Value(), answer) == SplitStep(old(Value()), Send(UnlinkCall(target)))
      ensures answer.WriteFailed? ==> shared.unlinks == old(shared.unlinks) - {old(nextSeqnum)}
      ensures answer != WriteFailed ==>
                && answer == Allocated(old(nextSeqnum))
                && shared.unlinks == old(shared.unlinks)[old(nextSeqnum) := target]
                && stream.sent == old(stream.sent) + Command(old(nextSeqnum), devid, UnlinkCall(target)).AsBytes()
    {
      var seqnum := AllocSeqnum();
      shared.unlinks := shared.unlinks[seqnum := target];
      var ok := WriteCommand(stream, Command(seqnum, devid, UnlinkCall(target)));
      if !ok {
        shared.unlinks := shared.unlinks - {seqnum};
        return WriteFailed;
      }
      return Allocated(seqnum);
    }
  }

  class UsbipReader {
    const stream: TcpStream
    const shared: SharedState

    constructor (stream: TcpStream, shared: SharedState)
      ensures this.stream == stream && this.shared == shared
    {
      this.stream, this.shared := stream, shared;
    }

    /** The reader's half of a split connection takes the same step as the unsplit receive. */
    method Receive(ghost writer: UsbipWriter) returns (received: Received)
      requires writer.stream == stream && writer.shared == shared
      modifies stream`inp, shared
      ensures (writer.Value(), Answer.Received(received)) == SplitStep(old(writer.Value()), Op.Receive)
    {
      var header := stream.ReadExact(HEADER_LEN);
      if header.None? {
        return Failure(UnexpectedEof);
      }
      var buf := header.value;
      var command := U32At(buf, 0);
      if command == USBIP_RET_SUBMIT {
        var h := RetSubmitFrom(buf);
        assert h == RetSubmitFrom(old(stream.inp));
        var direction := if h.seqnum in shared.pending then Some(shared.pending[h.seqnum]) else None;
        shared.pending := shared.pending - {h.seqnum};
        if direction.None? {
          return Failure(UnknownSeqnum(h.seqnum));
        }
        var data: seq<byte> := [];
        if direction.value == In && h.actualLength > 0 {
          var payload := stream.ReadExact(h.actualLength);
          if payload.None? {
            return Failure(UnexpectedEof);
          }
          data := payload.value;
        }
        received := Response(Submit(RetSubmit(h.seqnum, h.status, h.actualLength, data, direction.value)));
      } else if command == USBIP_RET_UNLINK {
        var h := RetUnlinkFrom(buf);
        assert h == RetUnlinkFrom(old(stream.inp));
        if h.seqnum in shared.unlinks {
          var target := shared.unlinks[h.seqnum];
          shared.unlinks := shared.unlinks - {h.seqnum};
          if h.status == -ECONNRESET {
            shared.pending := shared.pending - {target};
          }
        }
        received := Response(Unlink(h.seqnum, h.status));
      } else {
        received := Failure(UnknownCommand(command));
      }
    }
  }
}
