/** Reading the list of exported devices (usbip/src/client.rs:13-59, usbip/src/wire.rs). */
module DeviceList {
  import opened Bytes
  import opened Protocol
  import opened Client

  datatype InterfaceInfo = InterfaceInfo(class_: byte, subClass: byte, protocol: byte)

  datatype DeviceInfo = DeviceInfo(
    path: seq<byte>, busid: seq<byte>, busnum: u32, devnum: u32, speed: u32,
    idVendor: u16, idProduct: u16, bcdDevice: u16, deviceClass: byte, deviceSubClass: byte,
    deviceProtocol: byte, configurationValue: byte, numConfigurations: byte, numInterfaces: byte,
    interfaces: seq<InterfaceInfo>)

  const DEVICE_LEN: nat := 312
  const INTERFACE_LEN: nat := 4
  const REPLY_HEADER_LEN: nat := 12

  /** The bytes before the first NUL. */
  function CString(bs: seq<byte>): seq<byte> {
    if bs == [] || bs[0] == 0 then [] else [bs[0]] + CString(bs[1..])
  }

  predicate NoNul(bs: seq<byte>) {
    forall i | 0 <= i < |bs| :: bs[i] != 0
  }

  function InterfaceFrom(bs: seq<byte>): InterfaceInfo
    requires |bs| >= INTERFACE_LEN
  {
    InterfaceInfo(bs[0], bs[1], bs[2])
  }

  function DeviceFrom(bs: seq<byte>): DeviceInfo
    requires |bs| >= DEVICE_LEN
  {
    DeviceInfo(CString(bs[..256]), CString(bs[256..288]), U32At(bs, 288), U32At(bs, 292), U32At(bs, 296),
               U16At(bs, 300), U16At(bs, 302), U16At(bs, 304), bs[306], bs[307], bs[308], bs[309], bs[310], bs[311], [])
  }

  // --- What the nested loops compute ---

  datatype Read<T> = Eof | Read(value: T, rest: seq<byte>)

  function ReadInterfaces(n: nat, bs: seq<byte>): Read<seq<InterfaceInfo>> {
    if n == 0 then Read([], bs)
    else if |bs| < INTERFACE_LEN then Eof
    else Before([InterfaceFrom(bs)], ReadInterfaces(n - 1, bs[INTERFACE_LEN..]))
  }

  function ReadDevice(bs: seq<byte>): Read<DeviceInfo> {
    if |bs| < DEVICE_LEN then Eof
    else
      var d := DeviceFrom(bs);
      match ReadInterfaces(d.numInterfaces, bs[DEVICE_LEN..])
      case Eof => Eof
      case Read(interfaces, rest) => Read(d.(interfaces := interfaces), rest)
  }

  function ReadDevices(n: nat, bs: seq<byte>): Read<seq<DeviceInfo>> {
    if n == 0 then Read([], bs)
    else
      match ReadDevice(bs)
      case Eof => Eof
      case Read(d, rest) => Before([d], ReadDevices(n - 1, rest))
  }

  function Before<T>(xs: seq<T>, r: Read<seq<T>>): Read<seq<T>> {
    match r
    case Eof => Eof
    case Read(ys, rest) => Read(xs + ys, rest)
  }

  datatype ListResult = Listed(devices: seq<DeviceInfo>) | WriteFailed | UnexpectedEof | UnexpectedReply(code: u16)
                      | ServerStatus(status: u32)

  /** The outcome for the bytes the server sends, with what it leaves unread when it succeeds. */
  function ParseReply(bs: seq<byte>): (ListResult, seq<byte>) {
    if |bs| < REPLY_HEADER_LEN then (UnexpectedEof, [])
    else if U16At(bs, 2) != OP_REP_DEVLIST then (UnexpectedReply(U16At(bs, 2)), [])
    else if U32At(bs, 4) != 0 then (ServerStatus(U32At(bs, 4)), [])
    else
      match ReadDevices(U32At(bs, 8), bs[REPLY_HEADER_LEN..])
      case Eof => (UnexpectedEof, [])
      case Read(ds, rest) => (Listed(ds), rest)
  }

  function Request(): seq<byte> {
    Be16(USBIP_VERSION) + Be16(OP_REQ_DEVLIST) + Be32(0)
  }

  /** The request asks, in version 1.1.1, for the code 0x8005, with no error. */
  lemma RequestLayout()
    ensures Request() == [0x01, 0x11, 0x80, 0x05, 0, 0, 0, 0]
  {}

  /** When the reply is not a list of devices. The header is twelve bytes; another code than 0x0005 is reported
      whatever the status is, and then another status than 0. */
  lemma ErrorReplies(bs: seq<byte>)
    ensures var result := ParseReply(bs).0;
            if |bs| < 12 then result == UnexpectedEof
            else if bs[2..4] != [0x00, 0x05] then result == UnexpectedReply(U16At(bs, 2))
            else if bs[4..8] != [0, 0, 0, 0] then result == ServerStatus(U32At(bs, 4))
            else result == UnexpectedEof || (result.Listed? && |result.devices| == U32At(bs, 8))
  {
    if |bs| >= 12 {
      assert bs[2..4] == [bs[2], bs[3]] && bs[4..8] == [bs[4], bs[5], bs[6], bs[7]];
      if ReadDevices(U32At(bs, 8), bs[12..]).Read? {
        AllDevicesAreRead(U32At(bs, 8), bs[12..]);
      }
    }
  }

  lemma {:induction false} AllDevicesAreRead(n: nat, bs: seq<byte>)
    requires ReadDevices(n, bs).Read?
    ensures |ReadDevices(n, bs).value| == n
  {
    hide ReadDevice;
    if n > 0 {
      AllDevicesAreRead(n - 1, ReadDevice(bs).rest);
    }
  }

  /** Where the fields of a device are. Its strings end at the first NUL of their 256 and 32 bytes. */
  lemma DeviceLayout(bs: seq<byte>)
    requires |bs| >= 312
    ensures var d := DeviceFrom(bs);
            && d.path <= bs[..256] && NoNul(d.path) && (|d.path| < 256 ==> bs[|d.path|] == 0)
            && d.busid <= bs[256..288] && NoNul(d.busid) && (|d.busid| < 32 ==> bs[256 + |d.busid|] == 0)
            && d.busnum == U32At(bs, 288) && d.devnum == U32At(bs, 292) && d.speed == U32At(bs, 296)
            && d.idVendor == U16At(bs, 300) && d.idProduct == U16At(bs, 302) && d.bcdDevice == U16At(bs, 304)
            && d.deviceClass == bs[306] && d.deviceSubClass == bs[307] && d.deviceProtocol == bs[308]
            && d.configurationValue == bs[309] && d.numConfigurations == bs[310] && d.numInterfaces == bs[311]
  {
    CStringEnds(bs[..256]);
    CStringEnds(bs[256..288]);
  }

  lemma InterfaceLayout(bs: seq<byte>)
    requires |bs| >= 4
    ensures var f := InterfaceFrom(bs); f.class_ == bs[0] && f.subClass == bs[1] && f.protocol == bs[2]
  {}

  lemma {:induction false} CStringEnds(bs: seq<byte>)
    ensures CString(bs) <= bs && NoNul(CString(bs)) && (|CString(bs)| < |bs| ==> bs[|CString(bs)|] == 0)
  {
    if bs != [] && bs[0] != 0 {
      CStringEnds(bs[1..]);
    }
  }

  lemma BeforeBefore<T>(xs: seq<T>, x: T, r: Read<seq<T>>)
    ensures Before(xs, Before([x], r)) == Before(xs + [x], r)
  {
    if r.Read? {
      Associative(xs, [x], r.value);
    }
  }

  method ReadOne(stream: TcpStream) returns (result: Option<DeviceInfo>)
    modifies stream`inp
    ensures match ReadDevice(old(stream.inp))
            case Eof => result == None
            case Read(d, rest) => result == Some(d) && stream.inp == rest
  {
    ghost var start := stream.inp;
    var header := stream.ReadExact(DEVICE_LEN);
    if header.None? {
      return None;
    }
    var dev := DeviceFrom(header.value);
    DeviceFromPrefix(start);
    var n: nat := dev.numInterfaces;
    ghost var after := stream.inp;
    hide ReadInterfaces, InterfaceFrom, DeviceFrom;
    var interfaces: seq<InterfaceInfo> := [];
    NothingBefore(ReadInterfaces(n, after));
    for i := 0 to n
      invariant ReadInterfaces(n, after) == Before(interfaces, ReadInterfaces(n - i, stream.inp))
    {
      InterfaceStep(n - i, stream.inp);
      ghost var rest := stream.inp;
      var bs := stream.ReadExact(INTERFACE_LEN);
      if bs.None? {
        return None;
      }
      BeforeBefore(interfaces, InterfaceFrom(bs.value), ReadInterfaces(n - i - 1, stream.inp));
      interfaces := interfaces + [InterfaceFrom(bs.value)];
    }
    InterfacesDone(stream.inp);
    assert interfaces + [] == interfaces;
    return Some(dev.(interfaces := interfaces));
  }

  lemma DeviceFromPrefix(bs: seq<byte>)
    requires |bs| >= DEVICE_LEN
    ensures DeviceFrom(bs[..DEVICE_LEN]) == DeviceFrom(bs)
  {
    var p := bs[..DEVICE_LEN];
    assert p[..256] == bs[..256] && p[256..288] == bs[256..288];
  }

  lemma NothingBefore<T>(r: Read<seq<T>>)
    ensures Before([], r) == r
  {
    if r.Read? {
      assert [] + r.value == r.value;
    }
  }

  lemma InterfaceStep(n: nat, bs: seq<byte>)
    requires n > 0
    ensures if |bs| < INTERFACE_LEN then ReadInterfaces(n, bs) == Eof
            else ReadInterfaces(n, bs)
                 == Before([InterfaceFrom(bs[..INTERFACE_LEN])], ReadInterfaces(n - 1, bs[INTERFACE_LEN..]))
  {}

  lemma InterfacesDone(bs: seq<byte>)
    ensures ReadInterfaces(0, bs) == Read([], bs)
  {}

  /** Sends the request and reads the reply with two nested loops. */
  method ListDevices(stream: TcpStream) returns (result: ListResult)
    modifies stream
    ensures old(stream.room) < |Request()| ==> result == WriteFailed
    ensures old(stream.room) >= |Request()| ==>
              && stream.sent == old(stream.sent) + Request()
              && result == ParseReply(old(stream.inp)).0
              && (result.Listed? ==> stream.inp == ParseReply(old(stream.inp)).1)
  {
    ghost var start := stream.inp;
    var request := Request();
    var ok := stream.WriteAll(request);
    if !ok {
      return WriteFailed;
    }
    var header := stream.ReadExact(REPLY_HEADER_LEN);
    if header.None? {
      return UnexpectedEof;
    }
    var code, status := U16At(header.value, 2), U32At(header.value, 4);
    assert code == U16At(start, 2) && status == U32At(start, 4) && U32At(header.value, 8) == U32At(start, 8);
    hide U16At, U32At, Request;
    if code != OP_REP_DEVLIST {
      return UnexpectedReply(code);
    }
    if status != 0 {
      return ServerStatus(status);
    }
    var n: nat := U32At(header.value, 8);
    ghost var after := stream.inp;
    hide ReadDevice;
    var devices: seq<DeviceInfo> := [];
    NothingBefore(ReadDevices(n, after));
    for i := 0 to n
      invariant ReadDevices(n, after) == Before(devices, ReadDevices(n - i, stream.inp))
      invariant stream.sent == old(stream.sent) + Request()
    {
      ghost var rest := stream.inp;
      var dev := ReadOne(stream);
      if dev.None? {
        return UnexpectedEof;
      }
      BeforeBefore(devices, dev.value, ReadDevices(n - i - 1, stream.inp));
      devices := devices + [dev.value];
    }
    assert devices + [] == devices;
    return Listed(devices);
  }

  // --- Round trip ---

  /** A device as a server serialises it: strings end at a NUL or fill their field, whatever follows, and each
      interface has a padding byte of its own. */
  datatype WireDevice = WireDevice(device: DeviceInfo, pathTail: seq<byte>, busidTail: seq<byte>, padding: seq<byte>) {
    predicate Valid() {
      && |device.path| + |pathTail| == PATH_LEN && |device.busid| + |busidTail| == BUSID_LEN
      && NoNul(device.path) && NoNul(device.busid)
      && (pathTail == [] || pathTail[0] == 0) && (busidTail == [] || busidTail[0] == 0)
      && |device.interfaces| == device.numInterfaces == |padding|
    }

    function Numbers(): (bs: seq<byte>)
      ensures |bs| == 12
    {
      Words([device.busnum, device.devnum, device.speed])
    }

    function Ids(): (bs: seq<byte>)
      ensures |bs| == 12
    {
      Be16(device.idVendor) + Be16(device.idProduct) + Be16(device.bcdDevice)
      + [device.deviceClass, device.deviceSubClass, device.deviceProtocol, device.configurationValue,
         device.numConfigurations, device.numInterfaces]
    }

    function Head(): (bs: seq<byte>)
      requires Valid()
      ensures |bs| == DEVICE_LEN
    {
      (device.path + pathTail) + (device.busid + busidTail) + Numbers() + Ids()
    }

    function AsBytes(): (bs: seq<byte>)
      requires Valid()
      ensures |bs| == DEVICE_LEN + INTERFACE_LEN * |device.interfaces|
    {
      Head() + InterfacesBytes(device.interfaces, padding)
    }
  }

  function InterfacesBytes(fs: seq<InterfaceInfo>, padding: seq<byte>): (bs: seq<byte>)
    requires |padding| == |fs|
    ensures |bs| == INTERFACE_LEN * |fs|
  {
    if fs == [] then []
    else [fs[0].class_, fs[0].subClass, fs[0].protocol, padding[0]] + InterfacesBytes(fs[1..], padding[1..])
  }

  function DevicesBytes(ws: seq<WireDevice>): seq<byte>
    requires forall w | w in ws :: w.Valid()
  {
    if ws == [] then [] else ws[0].AsBytes() + DevicesBytes(ws[1..])
  }

  function Devices(ws: seq<WireDevice>): seq<DeviceInfo> {
    if ws == [] then [] else [ws[0].device] + Devices(ws[1..])
  }

  function TotalLength(ws: seq<WireDevice>): nat {
    if ws == [] then 0 else DEVICE_LEN + INTERFACE_LEN * |ws[0].device.interfaces| + TotalLength(ws[1..])
  }

  lemma {:induction false} CStringOf(s: seq<byte>, tail: seq<byte>)
    requires NoNul(s) && (tail == [] || tail[0] == 0)
    ensures CString(s + tail) == s
  {
    if s == [] {
      assert s + tail == tail;
    } else {
      assert (s + tail)[1..] == s[1..] + tail;
      CStringOf(s[1..], tail);
    }
  }

  lemma NumbersRead(bs: seq<byte>, w: WireDevice, at: nat)
    requires at + 12 <= |bs| && bs[at..at + 12] == w.Numbers()
    ensures U32At(bs, at) == w.device.busnum && U32At(bs, at + 4) == w.device.devnum
    ensures U32At(bs, at + 8) == w.device.speed
  {
    var ws := [w.device.busnum, w.device.devnum, w.device.speed];
    var field := bs[at..at + 12];
    assert field == Words(ws) + [];
    WordAt(ws, [], 0);
    WordAt(ws, [], 1);
    WordAt(ws, [], 2);
    hide Words;
    assert forall i | 0 <= i < 12 :: field[i] == bs[at + i];
  }

  lemma IdsRead(bs: seq<byte>, w: WireDevice, at: nat)
    requires at + 12 <= |bs| && bs[at..at + 12] == w.Ids()
    ensures U16At(bs, at) == w.device.idVendor && U16At(bs, at + 2) == w.device.idProduct
    ensures U16At(bs, at + 4) == w.device.bcdDevice
    ensures bs[at + 6] == w.device.deviceClass && bs[at + 7] == w.device.deviceSubClass
    ensures bs[at + 8] == w.device.deviceProtocol
    ensures bs[at + 9] == w.device.configurationValue && bs[at + 10] == w.device.numConfigurations
    ensures bs[at + 11] == w.device.numInterfaces
  {
    var field := bs[at..at + 12];
    assert forall i | 0 <= i < 12 :: bs[at + i] == field[i];
    assert bs[at] == bs[at + 0] == Be16(w.device.idVendor)[0];
  }

  lemma HeadRead(w: WireDevice, rest: seq<byte>)
    requires w.Valid()
    ensures DeviceFrom(w.Head() + rest) == w.device.(interfaces := [])
  {
    var bs := w.Head() + rest;
    var path, busid := w.device.path + w.pathTail, w.device.busid + w.busidTail;
    assert bs[..256] == path && bs[256..288] == busid && bs[288..300] == w.Numbers() && bs[300..312] == w.Ids();
    CStringOf(w.device.path, w.pathTail);
    CStringOf(w.device.busid, w.busidTail);
    NumbersRead(bs, w, 288);
    IdsRead(bs, w, 300);
  }

  lemma {:induction false} InterfacesRead(fs: seq<InterfaceInfo>, padding: seq<byte>, rest: seq<byte>)
    requires |padding| == |fs|
    ensures ReadInterfaces(|fs|, InterfacesBytes(fs, padding) + rest) == Read(fs, rest)
  {
    if fs == [] {
      assert InterfacesBytes(fs, padding) + rest == rest;
    } else {
      var head := [fs[0].class_, fs[0].subClass, fs[0].protocol, padding[0]];
      var after := InterfacesBytes(fs[1..], padding[1..]) + rest;
      assert InterfacesBytes(fs, padding) + rest == head + after;
      assert (head + after)[INTERFACE_LEN..] == after;
      assert InterfaceFrom(head + after) == fs[0] && [fs[0]] + fs[1..] == fs;
      InterfacesRead(fs[1..], padding[1..], rest);
    }
  }

  lemma DeviceRead(w: WireDevice, rest: seq<byte>)
    requires w.Valid()
    ensures ReadDevice(w.AsBytes() + rest) == Read(w.device, rest)
  {
    var body := InterfacesBytes(w.device.interfaces, w.padding) + rest;
    Associative(w.Head(), InterfacesBytes(w.device.interfaces, w.padding), rest);
    HeadRead(w, body);
    InterfacesRead(w.device.interfaces, w.padding, rest);
    hide DeviceFrom, WireDevice.Head, InterfacesBytes, ReadInterfaces;
    assert (w.Head() + body)[DEVICE_LEN..] == body;
  }

  lemma {:induction false} DevicesRead(ws: seq<WireDevice>, rest: seq<byte>)
    requires forall w | w in ws :: w.Valid()
    ensures ReadDevices(|ws|, DevicesBytes(ws) + rest) == Read(Devices(ws), rest)
    ensures |DevicesBytes(ws)| == TotalLength(ws)
  {
    hide WireDevice.AsBytes, ReadDevice, WireDevice.Valid;
    if ws == [] {
      assert DevicesBytes(ws) + rest == rest;
    } else {
      assert ws[0] in ws;
      Associative(ws[0].AsBytes(), DevicesBytes(ws[1..]), rest);
      DeviceRead(ws[0], DevicesBytes(ws[1..]) + rest);
      DevicesRead(ws[1..], rest);
    }
  }

  /** Any well-formed list is read back as it was sent, and exactly its 12 + sum of (312 + 4 * interfaces)
      bytes are consumed. */
  lemma DeviceListRoundTrip(version: u16, ws: seq<WireDevice>, rest: seq<byte>)
    requires (forall w | w in ws :: w.Valid()) && |ws| <= U32_MAX
    ensures var header := Be16(version) + Be16(OP_REP_DEVLIST) + Be32(0) + Be32(|ws|);
            ParseReply(header + DevicesBytes(ws) + rest) == (Listed(Devices(ws)), rest)
    ensures |DevicesBytes(ws)| == TotalLength(ws)
  {
    var header := Be16(version) + Be16(OP_REP_DEVLIST) + Be32(0) + Be32(|ws|);
    var body := DevicesBytes(ws) + rest;
    Associative(header, DevicesBytes(ws), rest);
    DevicesRead(ws, rest);
    hide DevicesBytes, ReadDevices, Devices, TotalLength;
    ReplyHeader(version, |ws|, body);
    assert (header + body)[REPLY_HEADER_LEN..] == body;
  }

  lemma ReplyHeader(version: u16, n: u32, body: seq<byte>)
    ensures var bs := Be16(version) + Be16(OP_REP_DEVLIST) + Be32(0) + Be32(n) + body;
            U16At(bs, 2) == OP_REP_DEVLIST && U32At(bs, 4) == 0 && U32At(bs, 8) == n
  {
    var bs := Be16(version) + Be16(OP_REP_DEVLIST) + Be32(0) + Be32(n) + body;
    var d := Be32(n);
    assert bs[2] == 0 && bs[3] == 5 && bs[4] == 0 && bs[5] == 0 && bs[6] == 0 && bs[7] == 0;
    assert bs[8] == d[0] && bs[9] == d[1] && bs[10] == d[2] && bs[11] == d[3];
    Digits(n);
  }
}
