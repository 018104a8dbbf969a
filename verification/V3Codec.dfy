/** Encoding and decoding of MQTT 3.1.1 packets (src/v3/codec/encode.rs, src/v3/codec/decode.rs). */
module V3Codec {
  import opened Wrappers
  import opened Words
  import opened Bytes
  import opened PacketTypes
  import opened V3Packets
  import VarInt

  // ----- Sizes

  function WillSize(w: Option<LastWill>): nat {
    if w.Some? then 2 + |w.value.topic| + 2 + |w.value.message| else 0
  }

  function FiltersSize(fs: seq<Filter>): nat {
    if fs == [] then 0 else 2 + |fs[0].topic| + 1 + FiltersSize(fs[1..])
  }

  function EncodedSize(p: Packet): nat {
    match p
    case Connect(c) =>
      10 + 2 + |c.clientId| + WillSize(c.lastWill) + OptLen(c.username) + OptLen(c.password)
    case Publish(_, _, qos, topic, _, payload) => (if qos > 0 then 4 else 2) + |topic| + |payload|
    case ConnectAck(_, _) => 2
    case PublishAck(_) => 2
    case PublishReceived(_) => 2
    case PublishRelease(_) => 2
    case PublishComplete(_) => 2
    case UnsubscribeAck(_) => 2
    case Subscribe(_, fs) => 2 + FiltersSize(fs)
    case SubscribeAck(_, status) => 2 + |status|
    case Unsubscribe(_, ts) => 2 + TopicsSize(ts)
    case PingRequest => 0
    case PingResponse => 0
    case Disconnect => 0
  }

  // ----- Encoding

  function FirstByte(p: Packet): byte {
    match p
    case Connect(_) => CONNECT
    case ConnectAck(_, _) => CONNACK
    case Publish(dup, retain, qos, _, _, _) => PUBLISH_START + 2 * qos + 8 * Bit(dup) + Bit(retain)
    case PublishAck(_) => PUBACK
    case PublishReceived(_) => PUBREC
    case PublishRelease(_) => PUBREL
    case PublishComplete(_) => PUBCOMP
    case Subscribe(_, _) => SUBSCRIBE
    case SubscribeAck(_, _) => SUBACK
    case Unsubscribe(_, _) => UNSUBSCRIBE
    case UnsubscribeAck(_) => UNSUBACK
    case PingRequest => PINGREQ
    case PingResponse => PINGRESP
    case Disconnect => DISCONNECT
  }

  function ConnectFlags(c: Connection): byte {
    128 * Bit(c.username.Some?) + 64 * Bit(c.password.Some?)
    + (if c.lastWill.Some? then 4 + 32 * Bit(c.lastWill.value.retain) + 8 * c.lastWill.value.qos else 0)
    + 2 * Bit(c.cleanSession)
  }

  /** Every length-prefixed field fits its two length bytes. */
  predicate FieldsFit(p: Packet) {
    match p
    case Connect(c) =>
      && Fits(c.clientId)
      && (c.lastWill.Some? ==> Fits(c.lastWill.value.topic) && Fits(c.lastWill.value.message))
      && (c.username.Some? ==> Fits(c.username.value))
      && (c.password.Some? ==> Fits(c.password.value))
    case Publish(_, _, _, topic, _, _) => Fits(topic)
    case Subscribe(_, fs) => forall i :: 0 <= i < |fs| ==> Fits(fs[i].topic)
    case Unsubscribe(_, ts) => TopicsFit(ts)
    case _ => true
  }

  function PutWill(w: Option<LastWill>): (b: seq<byte>)
    requires w.Some? ==> Fits(w.value.topic) && Fits(w.value.message)
    ensures |b| == WillSize(w)
  {
    if w.Some? then PutBytes(w.value.topic) + PutBytes(w.value.message) else []
  }

  function PutFilters(fs: seq<Filter>): (b: seq<byte>)
    requires forall i :: 0 <= i < |fs| ==> Fits(fs[i].topic)
    ensures |b| == FiltersSize(fs)
  {
    if fs == [] then [] else PutBytes(fs[0].topic) + [fs[0].qos] + PutFilters(fs[1..])
  }

  function CodeByte(c: ReturnCode): byte {
    if c.Success? then c.qos else 0x80
  }

  function PutStatus(status: seq<ReturnCode>): (b: seq<byte>)
    ensures |b| == |status|
  {
    if status == [] then [] else [CodeByte(status[0])] + PutStatus(status[1..])
  }

  function ConnectHead(c: Connection): (b: seq<byte>)
    ensures |b| == 8
  {
    PutBytes(ProtocolName()) + [LEVEL_3, ConnectFlags(c)]
  }

  /** What follows the connect flags. */
  function ConnectTail(c: Connection): (b: seq<byte>)
    requires FieldsFit(Connect(c))
    ensures |b| + 8 == EncodedSize(Connect(c))
  {
    PutU16(c.keepAlive) + (PutBytes(c.clientId) + (PutWill(c.lastWill) + (PutOpt(c.username) + PutOpt(c.password))))
  }

  /** The content after the fixed header; its length is the announced size. */
  function PutBody(p: Packet): (b: seq<byte>)
    requires FieldsFit(p)
    requires p.Publish? ==> (p.packetId.Some? <==> p.qos > 0)
    ensures |b| == EncodedSize(p)
  {
    match p
    case Connect(c) => ConnectHead(c) + ConnectTail(c)
    case ConnectAck(present, code) => [Bit(present), code]
    case Publish(_, _, _, topic, id, payload) =>
      PutBytes(topic) + ((if id.Some? then PutU16(id.value) else []) + payload)
    case PublishAck(id) => PutU16(id)
    case PublishReceived(id) => PutU16(id)
    case PublishRelease(id) => PutU16(id)
    case PublishComplete(id) => PutU16(id)
    case Subscribe(id, fs) => PutU16(id) + PutFilters(fs)
    case SubscribeAck(id, status) => PutU16(id) + PutStatus(status)
    case Unsubscribe(id, ts) => PutU16(id) + PutTopics(ts)
    case UnsubscribeAck(id) => PutU16(id)
    case PingRequest => []
    case PingResponse => []
    case Disconnect => []
  }

  /** The codec's encode: the announced size is truncated to 32 bits before it is written. */
  function Encode(p: Packet): Result<seq<byte>, EncodeError> {
    if p.Publish? && p.qos > 0 && p.packetId.None? then Err(EncPacketIdRequired)
    else
      var size := EncodedSize(p) % U32;
      if size > VarInt.MAX_VARINT then Err(LengthTooBig)
      else if !FieldsFit(p) then Err(EncInvalidLength)
      else if p.Publish? && p.qos == 0 && p.packetId.Some? then Err(EncMalformedPacket)
      else Ok([FirstByte(p)] + VarInt.Put(size) + PutBody(p))
  }

  // ----- Decoding

  function GetQos(b: nat): Result<QoS, DecodeError> {
    if b <= 2 then Ok(b) else Err(MalformedPacket)
  }

  function GetWill(flags: byte, src: seq<byte>): Decoded<Option<LastWill>> {
    if flags / 4 % 2 == 0 then Ok(Read(None, src))
    else
      match GetStr(src)
      case Err(e) => Err(e)
      case Ok(Read(topic, r1)) =>
        match GetBytes(r1)
        case Err(e) => Err(e)
        case Ok(Read(message, r2)) =>
          match GetQos(flags / 8 % 4)
          case Err(e) => Err(e)
          case Ok(qos) => Ok(Read(Some(LastWill(qos, flags / 32 % 2 == 1, topic, message)), r2))
  }

  function GetConnectTail(flags: byte, src: seq<byte>): Result<Connection, DecodeError> {
    match GetU16(src)
    case Err(e) => Err(e)
    case Ok(Read(keepAlive, r1)) =>
      match GetStr(r1)
      case Err(e) => Err(e)
      case Ok(Read(clientId, r2)) =>
        if clientId == [] && flags / 2 % 2 == 0 then Err(InvalidClientId)
        else
          match GetWill(flags, r2)
          case Err(e) => Err(e)
          case Ok(Read(will, r3)) =>
            match GetOptStr(flags / 128 == 1, r3)
            case Err(e) => Err(e)
            case Ok(Read(username, r4)) =>
              match GetOptBytes(flags / 64 % 2 == 1, r4)
              case Err(e) => Err(e)
              case Ok(Read(password, _)) =>
                Ok(Connection(flags / 2 % 2 == 1, keepAlive, will, clientId, username, password))
  }

  function GetConnect(src: seq<byte>): Result<Packet, DecodeError> {
    if |src| < 10 then Err(InvalidLength)
    else if src[..6] != PutBytes(ProtocolName()) then Err(InvalidProtocol)
    else if src[6] != LEVEL_3 then Err(UnsupportedProtocolLevel)
    else if src[7] % 2 == 1 then Err(ConnectReservedFlagSet)
    else
      match GetConnectTail(src[7], src[8..])
      case Err(e) => Err(e)
      case Ok(c) => Ok(Connect(c))
  }

  function GetConnectAck(src: seq<byte>): Result<Packet, DecodeError> {
    if |src| < 2 then Err(InvalidLength)
    else if src[0] > 1 then Err(ConnAckReservedFlagSet)
    else if src[1] > 6 then Err(MalformedPacket)
    else Ok(ConnectAck(src[0] == 1, src[1]))
  }

  function GetPublish(flags: nat, src: seq<byte>): Result<Packet, DecodeError> {
    match GetStr(src)
    case Err(e) => Err(e)
    case Ok(Read(topic, r1)) =>
      match GetQos(flags / 2 % 4)
      case Err(e) => Err(e)
      case Ok(qos) =>
        var dup, retain := flags / 8 == 1, flags % 2 == 1;
        if qos == 0 then Ok(Publish(dup, retain, qos, topic, None, r1))
        else
          match GetNz16(r1)
          case Err(e) => Err(e)
          case Ok(Read(id, payload)) => Ok(Publish(dup, retain, qos, topic, Some(id), payload))
  }

  /** A packet identifier and nothing else. */
  function GetAck(src: seq<byte>): Result<nz16, DecodeError> {
    match GetNz16(src)
    case Err(e) => Err(e)
    case Ok(Read(id, rest)) => if rest != [] then Err(InvalidLength) else Ok(id)
  }

  function GetFilters(src: seq<byte>): Result<seq<Filter>, DecodeError>
    decreases |src|
  {
    if src == [] then Ok([])
    else
      match GetStr(src)
      case Err(e) => Err(e)
      case Ok(Read(topic, r1)) =>
        if |r1| < 1 then Err(InvalidLength)
        else
          match GetQos(r1[0] as int % 4)
          case Err(e) => Err(e)
          case Ok(qos) =>
            match GetFilters(r1[1..])
            case Err(e) => Err(e)
            case Ok(fs) => Ok([Filter(topic, qos)] + fs)
  }

  function GetStatus(src: seq<byte>): Result<seq<ReturnCode>, DecodeError> {
    if src == [] then Ok([])
    else if src[0] != 0x80 && src[0] > 2 then Err(MalformedPacket)
    else
      match GetStatus(src[1..])
      case Err(e) => Err(e)
      case Ok(cs) => Ok([if src[0] == 0x80 then Failure else Success(src[0])] + cs)
  }

  /** A packet identifier, then the rest of the body. */
  function WithId<T>(src: seq<byte>, f: (nz16, seq<byte>) -> Result<T, DecodeError>): Result<T, DecodeError> {
    match GetNz16(src)
    case Err(e) => Err(e)
    case Ok(Read(id, rest)) => f(id, rest)
  }

  function DecodePacket(first: byte, src: seq<byte>): Result<Packet, DecodeError> {
    if first == CONNECT then GetConnect(src)
    else if first == CONNACK then GetConnectAck(src)
    else if PUBLISH_START <= first <= PUBLISH_END then GetPublish(first as int % 16, src)
    else if first == PUBACK then Map(GetAck(src), id => PublishAck(id))
    else if first == PUBREC then Map(GetAck(src), id => PublishReceived(id))
    else if first == PUBREL then Map(GetAck(src), id => PublishRelease(id))
    else if first == PUBCOMP then Map(GetAck(src), id => PublishComplete(id))
    else if first == SUBSCRIBE then WithId(src, (id, rest) => Map(GetFilters(rest), fs => Subscribe(id, fs)))
    else if first == SUBACK then WithId(src, (id, rest) => Map(GetStatus(rest), cs => SubscribeAck(id, cs)))
    else if first == UNSUBSCRIBE then WithId(src, (id, rest) => Map(GetTopics(rest), ts => Unsubscribe(id, ts)))
    else if first == UNSUBACK then Map(GetAck(src), id => UnsubscribeAck(id))
    else if first == PINGREQ then Ok(PingRequest)
    else if first == PINGRESP then Ok(PingResponse)
    else if first == DISCONNECT then Ok(Disconnect)
    else Err(UnsupportedPacketType)
  }
}
