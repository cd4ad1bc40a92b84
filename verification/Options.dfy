/** Constants, error flags and the small shared types of the library. */
module Options {

  const UNDEFINED := -1

  // Protocol settings.
  const PACKET_SIZE := 400
  const ADDRESS_SIZE := 64
  const TRAIL_SERIAL_SIZE := 5
  const TRAIL_SCATTER_SIZE := 5
  const TRAIL_SCATTER_DISTANCE := 100
  const TIMEOUT_HEARTBEAT := 10

  // Packet and message modes, service ids.
  const PACKET_MODE_PLAIN := 0
  const MESSAGE_MODE_SERVICE := 0
  const MESSAGE_MODE_APPLICATION := 1
  const M_HEARTBEAT := 1
  const M_SESSION_RESPONSE := 5

  // Byte offsets inside a packet.
  const N_PACKET_MODE := 12
  const N_PACKET_SIZE := 13
  const N_PACKET_MESSAGES := 15

  // Byte offsets inside a message.
  const N_MESSAGE_CHECKSUM := 0
  const N_MESSAGE_SIZE := 8
  const N_MESSAGE_SIZE_AND_MODE := 9
  const N_MESSAGE_INDEX := 10
  const N_MESSAGE_TIME := 18
  const N_MESSAGE_ACTOR := 26
  const N_MESSAGE_DATA := 30

  const PAYLOAD_SIZE := PACKET_SIZE - N_PACKET_MESSAGES
  const MAX_MESSAGE_SIZE := PAYLOAD_SIZE - N_MESSAGE_DATA

  const TWO_32 := 0x1_0000_0000
  const TWO_64 := 0x1_0000_0000_0000_0000
  const INT64_MAX := 0x7fff_ffff_ffff_ffff

  type byte = x: int | 0 <= x < 0x100
  type uint64 = x: int | 0 <= x < TWO_64

  /** The error flags the modelled operations can raise. */
  datatype Error =
    | InvalidMode
    | InvalidMessage
    | InvalidId
    | InvalidTimeElapsed
    | InvalidMessageSize
    | InvalidPacketSize
    | InvalidMessageIndex
    | InvalidMessageTime
    | InvalidMessageActor
    | NoFreeSlots
    | InvalidOutIndex
    | UnknownServiceId
    | TimeOverflow

  /** A status word: the set of flags OR-ed into it. */
  type Status = set<Error>

  const OK: Status := {}

  datatype Option<+T> = None | Some(value: T)
}
