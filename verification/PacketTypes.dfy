/** First bytes of the control packets, protocol name and levels (src/types.rs:1-3 and 50-67). */
module PacketTypes {
  import opened Bytes

  type QoS = x: int | 0 <= x <= 2

  const CONNECT: byte := 0x10
  const CONNACK: byte := 0x20
  const PUBLISH_START: byte := 0x30
  const PUBLISH_END: byte := 0x3F
  const PUBACK: byte := 0x40
  const PUBREC: byte := 0x50
  const PUBREL: byte := 0x62
  const PUBCOMP: byte := 0x70
  const SUBSCRIBE: byte := 0x82
  const SUBACK: byte := 0x90
  const UNSUBSCRIBE: byte := 0xA2
  const UNSUBACK: byte := 0xB0
  const PINGREQ: byte := 0xC0
  const PINGRESP: byte := 0xD0
  const DISCONNECT: byte := 0xE0
  const AUTH: byte := 0xF0

  const LEVEL_3: byte := 4
  const LEVEL_5: byte := 5

  function ProtocolName(): seq<byte> {
    [77, 81, 84, 84]
  }
}
