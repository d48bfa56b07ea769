/** The walk over a configuration descriptor that collects its endpoint descriptors
    (usbipdevirt/src/main.rs:124-155; USB 2.0, sections 9.5 and 9.6.6). */
module Descriptors {
  import opened Bytes

  const USB_DT_ENDPOINT: byte := 5
  const ENDPOINT_LEN: nat := 7

  datatype Endpoint = Endpoint(
    length: byte, descriptorType: byte, address: byte, attributes: byte, maxPacketSize: u16,
    interval: byte, refresh: byte, synchAddress: byte)
  {
    predicate IsIn() { address >= 0x80 }
    function Number(): u32 { address % 0x10 }

    /** A length an endpoint descriptor can have, with nothing in the fields it is too short for. */
    predicate Valid() {
      && descriptorType == USB_DT_ENDPOINT && length >= ENDPOINT_LEN
      && (length <= 7 ==> refresh == 0) && (length <= 8 ==> synchAddress == 0)
    }

    /** The descriptor's first nine bytes, as many of them as it is long. */
    function Head(): seq<byte> {
      [length, descriptorType, address, attributes] + Le16(maxPacketSize) + [interval]
      + (if length > 7 then [refresh] else []) + (if length > 8 then [synchAddress] else [])
    }
  }

  /** The fields of one endpoint record; the audio fields are zero when the record is too short. */
  function EndpointOf(r: seq<byte>): Endpoint
    requires |r| >= ENDPOINT_LEN
  {
    Endpoint(r[0], r[1], r[2], r[3], U16LeAt(r, 4), r[6],
             if |r| > 7 then r[7] else 0, if |r| > 8 then r[8] else 0)
  }

  /** Where the fields of a record are, byte by byte. */
  lemma EndpointLayout(r: seq<byte>)
    ensures IsEndpoint(r) <==> |r| >= 7 && r[1] == 5
    ensures |r| >= 7 ==>
              var e, lo: int, hi: int := EndpointOf(r), r[4], r[5];
              && e.length == r[0] && e.descriptorType == r[1] && e.address == r[2] && e.attributes == r[3]
              && e.maxPacketSize == lo + 0x100 * hi && e.interval == r[6]
              && (|r| == 7 ==> e.refresh == 0) && (|r| <= 8 ==> e.synchAddress == 0)
              && (|r| >= 8 ==> e.refresh == r[7]) && (|r| >= 9 ==> e.synchAddress == r[8])
  {}

  /** The walk cannot go on: too few bytes for a header, or a length that is impossible or runs past the end. */
  predicate Stuck(bs: seq<byte>) {
    |bs| < 2 || bs[0] < 2 || bs[0] > |bs|
  }

  /** What the first record contributes, if the walk can take it. */
  function First(bs: seq<byte>): seq<Endpoint>
    requires !Stuck(bs)
  {
    if IsEndpoint(bs[..bs[0]]) then [EndpointOf(bs[..bs[0]])] else []
  }

  function Walk(bs: seq<byte>): (eps: seq<Endpoint>)
    ensures ENDPOINT_LEN * |eps| <= |bs|
    decreases |bs|
  {
    if Stuck(bs) then [] else First(bs) + Walk(bs[bs[0]..])
  }

  lemma WalkTakesFirst(bs: seq<byte>)
    requires !Stuck(bs)
    ensures Walk(bs) == First(bs) + Walk(bs[bs[0]..])
  {
    hide EndpointOf;
  }

  method ParseEndpointDescriptors(config: seq<byte>) returns (endpoints: seq<Endpoint>)
    ensures endpoints == Walk(config)
  {
    hide Walk, EndpointOf, First;
    endpoints := [];
    var offset := 0;
    assert config[0..] == config && [] + Walk(config) == Walk(config);
    while offset + 1 < |config|
      invariant offset <= |config|
      invariant endpoints + Walk(config[offset..]) == Walk(config)
    {
      var length: nat := config[offset];
      if length < 2 || offset + length > |config| {
        break;
      }
      WalkStep(config, offset);
      Associative(endpoints, First(config[offset..]), Walk(config[offset + length..]));
      var descriptorType := config[offset + 1];
      if descriptorType == USB_DT_ENDPOINT && length >= ENDPOINT_LEN {
        var endpoint := Endpoint(
          config[offset], descriptorType, config[offset + 2], config[offset + 3], U16LeAt(config, offset + 4),
          config[offset + 6], if length > 7 then config[offset + 7] else 0,
          if length > 8 then config[offset + 8] else 0);
        FirstIsEndpoint(config, offset, endpoint);
        endpoints := endpoints + [endpoint];
      } else {
        FirstIsOther(config, offset);
      }
      offset := offset + length;
    }
    WalkStops(config[offset..]);
    assert endpoints + [] == endpoints;
  }

  lemma WalkStops(bs: seq<byte>)
    requires Stuck(bs)
    ensures Walk(bs) == []
  {}

  /** One round of the loop is one step of the walk. */
  lemma WalkStep(config: seq<byte>, offset: nat)
    requires offset < |config| && !Stuck(config[offset..])
    ensures offset + config[offset] <= |config|
    ensures Walk(config[offset..]) == First(config[offset..]) + Walk(config[offset + config[offset]..])
  {
    WalkTakesFirst(config[offset..]);
    hide Walk, First;
    assert config[offset..][config[offset]..] == config[offset + config[offset]..];
  }

  lemma FirstIsOther(config: seq<byte>, offset: nat)
    requires offset < |config| && !Stuck(config[offset..])
    requires config[offset + 1] != USB_DT_ENDPOINT || config[offset] < ENDPOINT_LEN
    ensures First(config[offset..]) == []
  {}

  lemma FirstIsEndpoint(config: seq<byte>, offset: nat, e: Endpoint)
    requires offset < |config| && !Stuck(config[offset..])
    requires config[offset + 1] == USB_DT_ENDPOINT && config[offset] >= ENDPOINT_LEN
    requires e == Endpoint(config[offset], config[offset + 1], config[offset + 2], config[offset + 3],
                           U16LeAt(config, offset + 4), config[offset + 6],
                           if config[offset] > 7 then config[offset + 7] else 0,
                           if config[offset] > 8 then config[offset + 8] else 0)
    ensures First(config[offset..]) == [e]
  {}

  // --- Records ---

  /** A record announces its own length in its first byte. */
  predicate IsRecord(r: seq<byte>) {
    |r| >= 2 && r[0] == |r|
  }

  predicate IsEndpoint(r: seq<byte>) {
    |r| >= ENDPOINT_LEN && r[1] == USB_DT_ENDPOINT
  }

  function Join(rs: seq<seq<byte>>): seq<byte> {
    if rs == [] then [] else rs[0] + Join(rs[1..])
  }

  /** The endpoint records of a list, in order. */
  function Endpoints(rs: seq<seq<byte>>): seq<Endpoint> {
    if rs == [] then []
    else (if IsEndpoint(rs[0]) then [EndpointOf(rs[0])] else []) + Endpoints(rs[1..])
  }

  /** On a serialised list of records, followed by anything the walk cannot take, the walk finds exactly
      the endpoint records of the list. */
  lemma {:induction false} WalkOfRecords(rs: seq<seq<byte>>, rest: seq<byte>)
    requires (forall r | r in rs :: IsRecord(r)) && Stuck(rest)
    ensures Walk(Join(rs) + rest) == Endpoints(rs)
  {
    if rs == [] {
      assert Join(rs) + rest == rest;
    } else {
      var bs, after := Join(rs) + rest, Join(rs[1..]) + rest;
      assert rs[0] in rs;
      assert bs == rs[0] + after;
      assert bs[..bs[0]] == rs[0] && bs[bs[0]..] == after;
      WalkOfRecords(rs[1..], rest);
    }
  }

  /** Every input is such a list and remainder, so the walk is the same as taking the input apart first. */
  lemma {:induction false} TakeApart(bs: seq<byte>) returns (rs: seq<seq<byte>>, rest: seq<byte>)
    ensures (forall r | r in rs :: IsRecord(r)) && Stuck(rest) && bs == Join(rs) + rest
    ensures Walk(bs) == Endpoints(rs)
    decreases |bs|
  {
    hide Walk, Endpoints, EndpointOf;
    if Stuck(bs) {
      rs, rest := [], bs;
    } else {
      var more;
      more, rest := TakeApart(bs[bs[0]..]);
      rs := [bs[..bs[0]]] + more;
      assert rs[1..] == more;
      Associative(bs[..bs[0]], Join(more), rest);
      assert bs == bs[..bs[0]] + bs[bs[0]..];
    }
    WalkOfRecords(rs, rest);
  }

  /** An endpoint descriptor is read back field by field from a record of its length. */
  lemma EndpointRoundTrip(e: Endpoint, extra: seq<byte>)
    requires e.Valid() && |e.Head()| + |extra| == e.length
    ensures EndpointOf(e.Head() + extra) == e && IsRecord(e.Head() + extra) && IsEndpoint(e.Head() + extra)
  {
    var r := e.Head() + extra;
    assert r[0] == e.length && r[1] == e.descriptorType && r[2] == e.address && r[3] == e.attributes;
    assert r[4] == Le16(e.maxPacketSize)[0] && r[5] == Le16(e.maxPacketSize)[1] && r[6] == e.interval;
    if e.length > 7 {
      assert r[7] == e.refresh;
    }
    if e.length > 8 {
      assert r[8] == e.synchAddress;
    }
  }

  // --- Algebra ---

  lemma FirstOfPrefix(bs: seq<byte>, k: nat)
    requires k <= |bs| && !Stuck(bs[..k])
    ensures !Stuck(bs) && First(bs[..k]) == First(bs) && bs[..k][bs[0]..] == bs[bs[0]..][..k - bs[0]]
  {
    hide EndpointOf;
    assert bs[..k][..bs[0]] == bs[..bs[0]];
  }

  /** Parsing a truncated descriptor finds a prefix of what parsing the whole finds. */
  lemma {:induction false} WalkOfPrefix(bs: seq<byte>, k: nat)
    requires k <= |bs|
    ensures Walk(bs[..k]) <= Walk(bs)
    decreases |bs|
  {
    hide Walk, First;
    if Stuck(bs[..k]) {
      WalkStops(bs[..k]);
    } else {
      FirstOfPrefix(bs, k);
      WalkTakesFirst(bs[..k]);
      WalkTakesFirst(bs);
      WalkOfPrefix(bs[bs[0]..], k - bs[0]);
    }
  }

  /** How many bytes the walk gets through. */
  function Reach(bs: seq<byte>): (n: nat)
    ensures n <= |bs|
    decreases |bs|
  {
    if Stuck(bs) then 0 else bs[0] + Reach(bs[bs[0]..])
  }

  /** After a descriptor that is consumed whole, the walk goes on as if it started afresh. */
  lemma {:induction false} WalkOfConcat(a: seq<byte>, b: seq<byte>)
    requires Reach(a) == |a|
    ensures Walk(a + b) == Walk(a) + Walk(b)
    decreases |a|
  {
    hide Walk, First;
    if a == [] {
      assert a + b == b;
      WalkStops(a);
      assert [] + Walk(b) == Walk(b);
    } else {
      FirstOfConcat(a, b);
      WalkTakesFirst(a);
      WalkTakesFirst(a + b);
      WalkOfConcat(a[a[0]..], b);
      Associative(First(a), Walk(a[a[0]..]), Walk(b));
    }
  }

  lemma FirstOfConcat(a: seq<byte>, b: seq<byte>)
    requires !Stuck(a)
    ensures !Stuck(a + b) && First(a + b) == First(a) && (a + b)[a[0]..] == a[a[0]..] + b
  {
    hide EndpointOf;
    assert (a + b)[..a[0]] == a[..a[0]];
  }
}
