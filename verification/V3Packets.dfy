/** Control packets of MQTT 3.1.1 (src/v3/codec/packet.rs, src/types.rs). */
module V3Packets {
  import opened Wrappers
  import opened Words
  import opened Bytes
  import opened PacketTypes

  type ConnectCode = x: int | 0 <= x <= 6

  datatype LastWill = LastWill(qos: QoS, retain: bool, topic: Str, message: seq<byte>)

  datatype Connection = Connection(
    cleanSession: bool,
    keepAlive: u16,
    lastWill: Option<LastWill>,
    clientId: Str,
    username: Option<Str>,
    password: Option<seq<byte>>)

  datatype ReturnCode = Success(qos: QoS) | Failure

  datatype Filter = Filter(topic: Str, qos: QoS)

  datatype Packet =
    | Connect(connection: Connection)
    | ConnectAck(sessionPresent: bool, code: ConnectCode)
    | Publish(dup: bool, retain: bool, qos: QoS, topic: Str, packetId: Option<nz16>, payload: seq<byte>)
    | PublishAck(id: nz16)
    | PublishReceived(id: nz16)
    | PublishRelease(id: nz16)
    | PublishComplete(id: nz16)
    | Subscribe(id: nz16, filters: seq<Filter>)
    | SubscribeAck(id: nz16, status: seq<ReturnCode>)
    | Unsubscribe(id: nz16, topics: seq<Str>)
    | UnsubscribeAck(id: nz16)
    | PingRequest
    | PingResponse
    | Disconnect
}
