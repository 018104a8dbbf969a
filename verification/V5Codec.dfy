/** The MQTT 5.0 codec as a whole (src/v5/codec/codec.rs, encode.rs:15-118, decode.rs:8-29). */
module V5Codec {
  import opened Wrappers
  import opened Words
  import opened Bytes
  import opened PacketTypes
  import opened V5Packets
  import opened V5Limited
  import V5Plain
  import V5PlainRoundTrip
  import VarInt

  // ----- Decoding

  function DecodePacket(first: byte, src: seq<byte>): Result<Packet, DecodeError> {
    if PUBLISH_START <= first <= PUBLISH_END then Map(V5Plain.GetPublish(first as int % 16, src), p => Publish(p))
    else if first == PUBACK then Map(GetPubAck(false, src), a => PublishAck(a))
    else if first == PINGREQ then Ok(PingRequest)
    else if first == PINGRESP then Ok(PingResponse)
    else if first == SUBSCRIBE then Map(V5Plain.GetSubscribe(src), s => Subscribe(s))
    else if first == SUBACK then Map(GetSubAck(false, src), a => SubscribeAck(a))
    else if first == UNSUBSCRIBE then Map(V5Plain.GetUnsubscribe(src), u => Unsubscribe(u))
    else if first == UNSUBACK then Map(GetSubAck(true, src), a => UnsubscribeAck(a))
    else if first == CONNECT then Map(V5Plain.GetConnect(src), c => Connect(c))
    else if first == CONNACK then Map(GetConnAck(src), a => ConnectAck(a))
    else if first == DISCONNECT then Map(GetDisconnect(src), d => Disconnect(d))
    else if first == AUTH then Map(GetAuth(src), a => Auth(a))
    else if first == PUBREC then Map(GetPubAck(false, src), a => PublishReceived(a))
    else if first == PUBREL then Map(GetPubAck(true, src), a => PublishRelease(a))
    else if first == PUBCOMP then Map(GetPubAck(true, src), a => PublishComplete(a))
    else Err(UnsupportedPacketType)
  }

  // ----- Encoding

  /** The outbound side of the codec: whether the peer declined problem information, and its packet size limit. */
  datatype Settings = Settings(noProblemInfo: bool, maxOut: u32)

  function Limit(cfg: Settings): u32 {
    if cfg.maxOut != 0 then cfg.maxOut else VarInt.MAX_VARINT
  }

  /** The limit that the codec's builder keeps for a maximum packet size; `set_max_outbound_size` keeps it as it is. */
  function BuilderLimit(n: u32): u32 {
    if n > 5 then n - 5 else n
  }

  function Silent(a: PubAck): PubAck { a.(users := [], reason := None) }

  function Quiet(a: SubAck): SubAck { a.(users := [], reason := None) }

  /** The packet as it is handed to the encoder. */
  function Prepared(cfg: Settings, p: Packet): Packet {
    if !cfg.noProblemInfo then p
    else
      match p
      case PublishAck(a) => PublishAck(Silent(a))
      case PublishReceived(a) => PublishReceived(Silent(a))
      case PublishRelease(a) => PublishRelease(Silent(a))
      case PublishComplete(a) => PublishComplete(Silent(a))
      case Subscribe(s) => Subscribe(s.(users := []))
      case SubscribeAck(a) => SubscribeAck(Quiet(a))
      case Unsubscribe(u) => Unsubscribe(u.(users := []))
      case UnsubscribeAck(a) => UnsubscribeAck(Quiet(a))
      case Auth(a) => Auth(a.(users := [], reason := None))
      case _ => p
  }

  function FirstByte(p: Packet): byte {
    match p
    case Connect(_) => CONNECT
    case ConnectAck(_) => CONNACK
    case Publish(m) => PUBLISH_START + V5Plain.PublishFlags(m)
    case PublishAck(_) => PUBACK
    case PublishReceived(_) => PUBREC
    case PublishRelease(_) => PUBREL
    case PublishComplete(_) => PUBCOMP
    case Subscribe(_) => SUBSCRIBE
    case SubscribeAck(_) => SUBACK
    case Unsubscribe(_) => UNSUBSCRIBE
    case UnsubscribeAck(_) => UNSUBACK
    case PingRequest => PINGREQ
    case PingResponse => PINGRESP
    case Disconnect(_) => DISCONNECT
    case Auth(_) => AUTH
  }

  function ContentSize(p: Packet, limit: u32): nat {
    if IsLimited(p) then LimitedSize(p, limit)
    else
      match p
      case Connect(c) => V5Plain.ConnectSize(c)
      case Publish(m) => V5Plain.PublishSize(m)
      case Subscribe(s) => V5Plain.SubscribeSize(s)
      case Unsubscribe(u) => V5Plain.UnsubscribeSize(u)
      case _ => 0
  }

  /** The error of the write pass, if it has one. */
  function BodyError(p: Packet, size: nat): Option<EncodeError> {
    if IsLimited(p) then (if Writes(LayoutOf(p), size) then None else Some(EncInvalidLength))
    else
      match p
      case Connect(c) => if V5Plain.ConnectFits(c) then None else Some(EncInvalidLength)
      case Publish(m) =>
        if !Fits(m.topic) then Some(EncInvalidLength)
        else if m.qos == 0 && m.packetId.Some? then Some(EncMalformedPacket)
        else if m.qos > 0 && m.packetId.None? then Some(EncPacketIdRequired)
        else if !V5Plain.PublishFits(m) then Some(EncInvalidLength)
        else None
      case Subscribe(s) => if V5Plain.FiltersFit(s.filters) then None else Some(EncInvalidLength)
      case Unsubscribe(u) => if TopicsFit(u.topics) then None else Some(EncInvalidLength)
      case _ => None
  }

  function PutBody(p: Packet, limit: u32): seq<byte>
    requires ContentSize(p, limit) <= VarInt.MAX_VARINT && BodyError(p, ContentSize(p, limit)).None?
  {
    if IsLimited(p) then PutLimited(LayoutOf(p), ContentSize(p, limit))
    else
      match p
      case Connect(c) => V5PlainRoundTrip.ConnectBody(c)
      case Publish(m) => V5PlainRoundTrip.PublishBody(m)
      case Subscribe(s) => V5Plain.PutSubscribe(s)
      case Unsubscribe(u) => V5Plain.PutUnsubscribe(u)
      case _ => []
  }

  function Encode(cfg: Settings, p: Packet): Result<seq<byte>, EncodeError> {
    var q := Prepared(cfg, p);
    var size := ContentSize(q, Limit(cfg));
    if size > Limit(cfg) then Err(EncInvalidLength)
    else if size > VarInt.MAX_VARINT then Err(LengthTooBig)
    else
      match BodyError(q, size)
      case Some(e) => Err(e)
      case None => Ok([FirstByte(q)] + VarInt.Put(size) + PutBody(q, Limit(cfg)))
  }
}
