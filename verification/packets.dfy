/** The packet structure shared by the receiver, the transcript parser and the capture writer. */
module Packets {
  import opened Crc

  const START_BYTE: byte := 0x02
  const STOP_BYTE: byte := 0x03

  const FLAG_DISCONNECT: byte := 0x20
  const FLAG_ACK: byte := 0x08
  const FLAG_NACK: byte := 0
  const FLAG_RETRY: byte := 0x04
  const FLAG_SEQUENCE: byte := 0x03

  type Status = bv32

  const SUCCESS: Status := 0
  const ERROR_RETRY: Status := 0x001
  const ERROR_DISCONNECT: Status := 0x002
  const ERROR_CRC: Status := 0x004
  const ERROR_FRAMING: Status := 0x008
  const ERROR_TIMEOUT: Status := 0x010
  const ERROR_NACK: Status := 0x040
  const ERROR_NO_CARRIER: Status := 0x100
  const ERROR_FAILURE: Status := 0x200

  /** Length of the terminal id that precedes the data of every packet with a payload. */
  const ID_LENGTH: nat := 5
  /** Most table data in one packet. */
  const DATA_MAX: nat := 245
  const PAYLOAD_MAX: nat := 250
  /** Table id of the terminal's acknowledgement of a table. */
  const TABLE_UPD_ACK: byte := 0x0e
  /** The payload buffer has three more bytes, for the trailer copied behind the data. */
  const BUFFER_SIZE: nat := 253

  type Payload = p: seq<byte> | |p| == BUFFER_SIZE witness seq(BUFFER_SIZE, _ => 0)

  datatype Packet = Packet(
    start: byte, flags: byte, pktlen: byte,
    payload: Payload,
    crc: bv16, end: byte,
    payloadLen: nat, calculated: bv16)
  {
    function Header(): seq<byte> { [start, flags, pktlen] }

    function Trailer(): (t: seq<byte>)
      ensures |t| == 3
    {
      [Lo(crc), Hi(crc), end]
    }

    /** The trailer written immediately behind the data. */
    function CopyTrailer(): (r: Packet)
      requires payloadLen <= PAYLOAD_MAX
      ensures r == this.(payload := r.payload)
    {
      this.(payload := Put(payload, payloadLen, Trailer()))
    }
  }

  function ZeroPayload(): Payload { seq(BUFFER_SIZE, _ => 0) }

  /** The packet after memset. */
  function ZeroPacket(): Packet {
    Packet(0, 0, 0, ZeroPayload(), 0, 0, 0, 0)
  }

  /** Writes s into the buffer at position at. */
  function Put(p: Payload, at: nat, s: seq<byte>): (q: Payload)
    requires at + |s| <= BUFFER_SIZE
  {
    p[..at] + s + p[at + |s|..]
  }

  /** A byte as a plain number. */
  function Uint(b: byte): (n: nat)
    ensures n <= 255
  {
    b as int
  }

  /** The length byte covers flags, length, payload, checksum and stop. */
  function LengthByte(dataLen: nat): byte
    requires dataLen <= PAYLOAD_MAX
  {
    (dataLen + 5) as byte
  }

  lemma NextByte(b: byte)
    requires b != 0xFF
    ensures (b + 1) as int == b as int + 1
  {
  }

  lemma ByteBack(b: byte)
    ensures (b as int) as byte == b
    ensures b as int == 255 ==> b == 0xFF
  {
  }

  lemma {:induction false} ByteOfNat(n: nat)
    requires n < 256
    ensures (n as byte) as int == n
  {
    if n > 0 {
      var m := (n - 1) as byte;
      ByteOfNat(n - 1);
      NextByte(m);
      ByteBack(m + 1);
    }
  }

  lemma LengthByteExact(dataLen: nat)
    requires dataLen <= PAYLOAD_MAX
    ensures LengthByte(dataLen) as int == dataLen + 5
  {
    ByteOfNat(dataLen + 5);
  }

  /** The bytes of a frame that the checksum covers. */
  function FrameBody(flags: byte, data: seq<byte>): seq<byte>
    requires |data| <= PAYLOAD_MAX
  {
    [START_BYTE, flags, LengthByte(|data|)] + data
  }

  /** A frame as it goes over the line. */
  function Frame(flags: byte, data: seq<byte>): (f: seq<byte>)
    requires |data| <= PAYLOAD_MAX
    ensures |f| == |data| + 6
  {
    Protected(FrameBody(flags, data)) + [STOP_BYTE]
  }

  /** mm_packet_t, updated in place. */
  class PacketBuffer {
    var start: byte
    var flags: byte
    var pktlen: byte
    const payload: array<byte>
    var crc: bv16
    var end: byte
    var payloadLen: nat
    var calculated: bv16

    ghost predicate Valid() { payload.Length == BUFFER_SIZE }

    ghost function Value(): Packet
      requires Valid()
      reads this, payload
    {
      Packet(start, flags, pktlen, payload[..], crc, end, payloadLen, calculated)
    }

    constructor ()
      ensures Valid() && fresh(this) && fresh(payload)
      ensures Value() == ZeroPacket()
    {
      start, flags, pktlen, crc, end, payloadLen, calculated := 0, 0, 0, 0, 0, 0, 0;
      payload := new byte[BUFFER_SIZE](_ => 0);
      new;
      assert payload[..] == ZeroPayload();
    }

    method Clear()
      requires Valid()
      modifies this, payload
      ensures Value() == ZeroPacket()
    {
      start, flags, pktlen, crc, end, payloadLen, calculated := 0, 0, 0, 0, 0, 0, 0;
      forall i | 0 <= i < payload.Length {
        payload[i] := 0;
      }
      assert payload[..] == ZeroPayload();
    }

    method CopyTrailer()
      requires Valid() && payloadLen <= PAYLOAD_MAX
      modifies payload
      ensures Value() == old(Value()).CopyTrailer()
    {
      payload[payloadLen] := Lo(crc);
      payload[payloadLen + 1] := Hi(crc);
      payload[payloadLen + 2] := end;
      assert payload[..] == Put(old(payload[..]), payloadLen, [Lo(crc), Hi(crc), end]);
    }
  }
}
