/** USB/IP protocol constants and the values the client exchanges (usbip/src/protocol.rs). */
module Protocol {
  import opened Bytes

  const USBIP_VERSION: u16 := 0x0111
  const OP_REQ_DEVLIST: u16 := 0x8005
  const OP_REP_DEVLIST: u16 := 0x0005

  const USBIP_CMD_SUBMIT: u32 := 1
  const USBIP_CMD_UNLINK: u32 := 2
  const USBIP_RET_SUBMIT: u32 := 3
  const USBIP_RET_UNLINK: u32 := 4

  const PATH_LEN: nat := 256
  const BUSID_LEN: nat := 32

  const ECONNRESET: i32 := 104

  datatype Direction = Out | In {
    function Code(): u32 { if In? then 1 else 0 }
  }

  datatype RetSubmit = RetSubmit(seqnum: u32, status: i32, actualLength: u32, data: seq<byte>, direction: Direction) {
    /** The shape every decoded response has: an IN response carries exactly the announced bytes,
        an OUT response carries none. */
    predicate WellShaped() {
      |data| == if direction.In? then actualLength else 0
    }
  }

  datatype UrbResponse = Submit(ret: RetSubmit) | Unlink(seqnum: u32, status: i32)
}
