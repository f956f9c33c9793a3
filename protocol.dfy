/**
 * The Player message envelope: message-type codes and the fixed-size
 * header that precedes every payload.  The header declaration lives in
 * player.h, which is not part of this model; the field list follows the
 * header fields that driver.cc fills in (stx, type, subtype, device,
 * device_index, timestamp_sec, timestamp_usec, size), laid out packed in
 * host (little-endian) order.  Only this module depends on that layout.
 */
module Protocol {
  import opened Wire

  // Message-type codes.  The proofs only use that they are distinct and
  // that RESP_ACK is non-zero.
  const PLAYER_MSGTYPE_DATA: byte := 1
  const PLAYER_MSGTYPE_CMD: byte := 2
  const PLAYER_MSGTYPE_REQ: byte := 3
  const PLAYER_MSGTYPE_RESP_ACK: byte := 4
  const PLAYER_MSGTYPE_SYNCH: byte := 5
  const PLAYER_MSGTYPE_RESP_NACK: byte := 6

  /** struct player_msghdr */
  datatype MsgHeader = MsgHeader(
    stx: u16,
    msgType: byte,
    subtype: byte,
    device: u16,
    deviceIndex: u16,
    timestampSec: u32,
    timestampUsec: u32,
    size: u32)

  /** sizeof(struct player_msghdr) */
  const HDR_SIZE: nat := 20

  /** The bytes memcpy copies out of a header. */
  function EncodeHeader(h: MsgHeader): (b: seq<byte>)
    ensures |b| == HDR_SIZE
  {
    Le16(h.stx) + [h.msgType, h.subtype] + Le16(h.device) + Le16(h.deviceIndex)
      + Le32(h.timestampSec) + Le32(h.timestampUsec) + Le32(h.size)
  }

  /** The header a `(player_msghdr_t*)` cast sees at the start of a buffer. */
  function DecodeHeader(b: seq<byte>): MsgHeader
    requires |b| >= HDR_SIZE
  {
    MsgHeader(
      FromLe16(b[0..2]), b[2], b[3], FromLe16(b[4..6]), FromLe16(b[6..8]),
      FromLe32(b[8..12]), FromLe32(b[12..16]), FromLe32(b[16..20]))
  }

  /** A buffer that starts with an encoded header decodes to that header,
      whatever payload follows it. */
  lemma DecodeEncodeHeader(h: MsgHeader, payload: seq<byte>)
    ensures DecodeHeader(EncodeHeader(h) + payload) == h
  {
    var b := EncodeHeader(h) + payload;
    assert b[0..2] == Le16(h.stx);
    assert b[4..6] == Le16(h.device);
    assert b[6..8] == Le16(h.deviceIndex);
    assert b[8..12] == Le32(h.timestampSec);
    assert b[12..16] == Le32(h.timestampUsec);
    assert b[16..20] == Le32(h.size);
    Le16RoundTrip(h.stx);
    Le16RoundTrip(h.device);
    Le16RoundTrip(h.deviceIndex);
    Le32RoundTrip(h.timestampSec);
    Le32RoundTrip(h.timestampUsec);
    Le32RoundTrip(h.size);
  }
}
