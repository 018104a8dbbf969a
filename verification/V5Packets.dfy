/** Control packets of MQTT 5.0 (src/v5/codec/packet/). */
module V5Packets {
  import opened Wrappers
  import opened Words
  import opened Bytes
  import opened PacketTypes
  import opened Props

  datatype ConnAck = ConnAck(
    sessionPresent: bool,
    code: byte,
    sessionExpiry: Option<u32>,
    receiveMax: Option<nz16>,
    maxQos: Option<QoS>,
    retainAvailable: Option<bool>,
    maxPacketSize: Option<u32>,
    assignedClientId: Option<Str>,
    topicAliasMax: u16,
    reason: Option<Str>,
    users: seq<UserProp>,
    wildcardSubs: Option<bool>,
    subscriptionIds: Option<bool>,
    sharedSubs: Option<bool>,
    serverKeepAlive: Option<u16>,
    responseInfo: Option<Str>,
    serverReference: Option<Str>,
    authMethod: Option<Str>,
    authData: Option<seq<byte>>)

  /** PUBACK, PUBREC, PUBREL and PUBCOMP. */
  datatype PubAck = PubAck(id: nz16, code: byte, users: seq<UserProp>, reason: Option<Str>)

  /** SUBACK and UNSUBACK. */
  datatype SubAck = SubAck(id: nz16, users: seq<UserProp>, reason: Option<Str>, status: seq<byte>)

  datatype Disconnection = Disconnection(
    code: byte,
    sessionExpiry: Option<u32>,
    serverReference: Option<Str>,
    reason: Option<Str>,
    users: seq<UserProp>)

  datatype Authentication = Authentication(
    code: byte,
    authMethod: Option<Str>,
    data: Option<seq<byte>>,
    reason: Option<Str>,
    users: seq<UserProp>)

  datatype Publication = Publication(
    dup: bool,
    retain: bool,
    qos: QoS,
    packetId: Option<nz16>,
    topic: Str,
    payload: seq<byte>,
    topicAlias: Option<nz16>,
    correlationData: Option<seq<byte>>,
    messageExpiry: Option<nz32>,
    contentType: Option<Str>,
    users: seq<UserProp>,
    isUtf8: Option<bool>,
    responseTopic: Option<Str>,
    subscriptionIds: Option<seq<nz32>>)

  datatype Will = Will(
    qos: QoS,
    retain: bool,
    topic: Str,
    message: seq<byte>,
    delay: Option<u32>,
    correlationData: Option<seq<byte>>,
    messageExpiry: Option<nz32>,
    contentType: Option<Str>,
    users: seq<UserProp>,
    isUtf8: Option<bool>,
    responseTopic: Option<Str>)

  datatype Connection = Connection(
    cleanStart: bool,
    keepAlive: u16,
    sessionExpiry: Option<u32>,
    authMethod: Option<Str>,
    authData: Option<seq<byte>>,
    problemInfo: bool,
    responseInfo: bool,
    receiveMax: Option<nz16>,
    topicAliasMax: u16,
    users: seq<UserProp>,
    maxPacketSize: Option<nz32>,
    will: Option<Will>,
    clientId: Str,
    username: Option<Str>,
    password: Option<seq<byte>>)

  datatype Filter = Filter(topic: Str, qos: QoS, noLocal: bool, retainAsPublished: bool, retainHandling: QoS)

  datatype Subscription = Subscription(
    id: nz16,
    subscriptionId: Option<nz32>,
    users: seq<UserProp>,
    filters: seq<Filter>)

  datatype Unsubscription = Unsubscription(id: nz16, users: seq<UserProp>, topics: seq<Str>)

  datatype Packet =
    | Connect(connection: Connection)
    | ConnectAck(connAck: ConnAck)
    | Publish(publication: Publication)
    | PublishAck(pubAck: PubAck)
    | PublishReceived(pubAck: PubAck)
    | PublishRelease(pubAck: PubAck)
    | PublishComplete(pubAck: PubAck)
    | Subscribe(subscription: Subscription)
    | SubscribeAck(subAck: SubAck)
    | Unsubscribe(unsubscription: Unsubscription)
    | UnsubscribeAck(subAck: SubAck)
    | PingRequest
    | PingResponse
    | Disconnect(disconnection: Disconnection)
    | Auth(authentication: Authentication)

  /** A packet without user properties and reason string. */
  function Stripped(p: Packet): Packet {
    match p
    case Connect(c) => Connect(c.(users := []))
    case ConnectAck(a) => ConnectAck(a.(users := [], reason := None))
    case Publish(m) => Publish(m.(users := []))
    case PublishAck(a) => PublishAck(a.(users := [], reason := None))
    case PublishReceived(a) => PublishReceived(a.(users := [], reason := None))
    case PublishRelease(a) => PublishRelease(a.(users := [], reason := None))
    case PublishComplete(a) => PublishComplete(a.(users := [], reason := None))
    case Subscribe(s) => Subscribe(s.(users := []))
    case SubscribeAck(a) => SubscribeAck(a.(users := [], reason := None))
    case Unsubscribe(u) => Unsubscribe(u.(users := []))
    case UnsubscribeAck(a) => UnsubscribeAck(a.(users := [], reason := None))
    case PingRequest => PingRequest
    case PingResponse => PingResponse
    case Disconnect(d) => Disconnect(d.(users := [], reason := None))
    case Auth(a) => Auth(a.(users := [], reason := None))
  }

  // ----- Reason codes

  predicate ConnAckCode(b: byte) {
    b == 0 || 128 <= b <= 138 || b == 140 || b == 144 || b == 149 || b == 151 || 153 <= b <= 157 || b == 159
  }

  predicate PubAckCode(b: byte) {
    b in [0, 16, 128, 131, 135, 144, 145, 147, 151, 153]
  }

  predicate PubRelCode(b: byte) {
    b == 0 || b == 146
  }

  predicate SubAckCode(b: byte) {
    b <= 2 || b in [128, 131, 135, 143, 145, 151, 158, 161, 162]
  }

  predicate UnsubAckCode(b: byte) {
    b in [0, 17, 128, 131, 135, 143, 145]
  }

  predicate DisconnectCode(b: byte) {
    b == 0 || b == 4 || 128 <= b <= 131 || b == 135 || b == 137 || 139 <= b <= 144 || 147 <= b <= 162
  }

  predicate AuthCode(b: byte) {
    b == 0 || b == 24 || b == 25
  }

  // ----- Optional fields as property values

  function FromBool(o: Option<bool>): Option<Val> { if o.Some? then Some(VBool(o.value)) else None }
  function FromQos(o: Option<QoS>): Option<Val> { if o.Some? then Some(VByte(o.value)) else None }
  function From16(o: Option<u16>): Option<Val> { if o.Some? then Some(VU16(o.value)) else None }
  function FromNz16(o: Option<nz16>): Option<Val> { if o.Some? then Some(VU16(o.value)) else None }
  function FromNz32(o: Option<nz32>): Option<Val> { if o.Some? then Some(VU32(o.value)) else None }
  function From32(o: Option<u32>): Option<Val> { if o.Some? then Some(VU32(o.value)) else None }
  function FromStr(o: Option<Str>): Option<Val> { if o.Some? then Some(VStr(o.value)) else None }
  function FromBin(o: Option<seq<byte>>): Option<Val> { if o.Some? then Some(VBin(o.value)) else None }

  function ToBool(o: Option<Val>): Option<bool> { if o.Some? && o.value.VBool? then Some(o.value.b) else None }
  function ToQos(o: Option<Val>): Option<QoS> {
    if o.Some? && o.value.VByte? && o.value.qos <= 2 then Some(o.value.qos) else None
  }
  function To16(o: Option<Val>): Option<u16> { if o.Some? && o.value.VU16? then Some(o.value.n16) else None }
  function ToNz16(o: Option<Val>): Option<nz16> {
    if o.Some? && o.value.VU16? && o.value.n16 != 0 then Some(o.value.n16) else None
  }
  function To32(o: Option<Val>): Option<u32> { if o.Some? && o.value.VU32? then Some(o.value.n32) else None }
  function ToNz32(o: Option<Val>): Option<nz32> {
    if o.Some? && o.value.VU32? && o.value.n32 != 0 then Some(o.value.n32) else None
  }
  function ToStr(o: Option<Val>): Option<Str> { if o.Some? && o.value.VStr? then Some(o.value.s) else None }
  function ToBin(o: Option<Val>): Option<seq<byte>> { if o.Some? && o.value.VBin? then Some(o.value.bin) else None }

  function OrZero(o: Option<u16>): u16 { if o.Some? then o.value else 0 }

  /** A field whose zero is not written. */
  function NonZero(n: u16): Option<u16> { if n > 0 then Some(n) else None }
}
