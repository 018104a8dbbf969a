/**
  The MQTT 5.0 packets that are never cut: PUBLISH, CONNECT, SUBSCRIBE and UNSUBSCRIBE
  (src/v5/codec/packet/publish.rs, connect.rs, subscribe.rs).
 */
module V5Plain {
  import opened Wrappers
  import opened Words
  import opened Bytes
  import opened PacketTypes
  import opened Props
  import opened LimitedProps
  import opened PropBlocks
  import opened V5Packets
  import VarInt

  // ----- PUBLISH

  const PUBLISH_TABLE: Table :=
    map[UTF8_PAYLOAD := KBool, MSG_EXPIRY_INT := KNz32, CONTENT_TYPE := KStr, RESP_TOPIC := KStr,
        CORR_DATA := KBin, SUB_ID := KIds, TOPIC_ALIAS := KNz16, USER := KUser]

  function PublishSlots(p: Publication): seq<Slot> {
    [ Slot(TOPIC_ALIAS, FromNz16(p.topicAlias)),
      Slot(CORR_DATA, FromBin(p.correlationData)),
      Slot(MSG_EXPIRY_INT, FromNz32(p.messageExpiry)),
      Slot(CONTENT_TYPE, FromStr(p.contentType)),
      Slot(UTF8_PAYLOAD, FromBool(p.isUtf8)),
      Slot(RESP_TOPIC, FromStr(p.responseTopic)) ]
  }

  /** Subscription identifiers are sized as variable byte integers ... */
  function IdsSize(ids: seq<nz32>): nat {
    if ids == [] then 0 else 1 + VarInt.Len(ids[0]) + IdsSize(ids[1..])
  }

  /** ... and written as four bytes. */
  function PutIds(ids: seq<nz32>): (b: seq<byte>)
    ensures |b| == 5 * |ids|
  {
    if ids == [] then [] else [SUB_ID] + PutU32(ids[0]) + PutIds(ids[1..])
  }

  function Ids(p: Publication): seq<nz32> {
    if p.subscriptionIds.Some? then p.subscriptionIds.value else []
  }

  function PublishPropLen(p: Publication): nat {
    SlotsSize(PublishSlots(p)) + IdsSize(Ids(p)) + UsersSize(p.users)
  }

  function PublishSize(p: Publication): nat {
    2 + |p.topic| + (if p.qos == 0 then 0 else 2)
    + (PublishPropLen(p) + VarInt.Len(PublishPropLen(p))) + |p.payload|
  }

  predicate PublishFits(p: Publication) {
    && Fits(p.topic) && OptFits(p.correlationData) && OptFits(p.contentType) && OptFits(p.responseTopic)
    && UsersFit(p.users)
  }

  /** The identifier rule of the encoder: present exactly for quality of service 1 and 2. */
  predicate PublishIdRule(p: Publication) {
    p.packetId.Some? <==> p.qos > 0
  }

  function PutPublishProps(p: Publication): seq<byte>
    requires Writable(SlotProps(PublishSlots(p))) && Writable(UserProps(p.users))
  {
    PutProps(SlotProps(PublishSlots(p))) + (PutIds(Ids(p)) + PutProps(UserProps(p.users)))
  }

  /** The body, with the length of the properties recovered from the announced size. */
  function PutPublish(p: Publication, size: nat): seq<byte>
    requires Fits(p.topic) && PublishIdRule(p)
    requires Writable(SlotProps(PublishSlots(p))) && Writable(UserProps(p.users))
    requires 2 + |p.topic| + (if p.qos == 0 then 0 else 2) + |p.payload| < size
    requires VarInt.FromSize(size - (2 + |p.topic| + (if p.qos == 0 then 0 else 2) + |p.payload|)) <= VarInt.MAX_VARINT
  {
    var n := VarInt.FromSize(size - (2 + |p.topic| + (if p.qos == 0 then 0 else 2) + |p.payload|));
    PutBytes(p.topic)
    + ((if p.packetId.Some? then PutU16(p.packetId.value) else [])
       + (VarInt.Put(n) + (PutPublishProps(p) + p.payload)))
  }

  function BuildPublish(dup: bool, retain: bool, qos: QoS, id: Option<nz16>, topic: Str, ps: seq<Prop>,
                        payload: seq<byte>): Publication {
    Publication(dup, retain, qos, id, topic, payload,
                ToNz16(Find(ps, TOPIC_ALIAS)), ToBin(Find(ps, CORR_DATA)), ToNz32(Find(ps, MSG_EXPIRY_INT)),
                ToStr(Find(ps, CONTENT_TYPE)), UsersOf(ps), ToBool(Find(ps, UTF8_PAYLOAD)), ToStr(Find(ps, RESP_TOPIC)),
                if IdsOf(ps) == [] then None else Some(IdsOf(ps)))
  }

  function GetPublishTail(dup: bool, retain: bool, qos: QoS, id: Option<nz16>, topic: Str,
                          src: seq<byte>): Result<Publication, DecodeError> {
    match GetBlock(PUBLISH_TABLE, src)
    case Err(e) => Err(e)
    case Ok(Read(ps, payload)) => Ok(BuildPublish(dup, retain, qos, id, topic, ps, payload))
  }

  function GetPublish(flags: nat, src: seq<byte>): Result<Publication, DecodeError> {
    match GetStr(src)
    case Err(e) => Err(e)
    case Ok(Read(topic, r1)) =>
      var q := flags / 2 % 4;
      if q > 2 then Err(MalformedPacket)
      else
        var dup, retain := flags / 8 == 1, flags % 2 == 1;
        if q == 0 then GetPublishTail(dup, retain, q, None, topic, r1)
        else
          match GetNz16(r1)
          case Err(e) => Err(e)
          case Ok(Read(id, r2)) => GetPublishTail(dup, retain, q, Some(id), topic, r2)
  }

  /** The low four bits of the first byte. */
  function PublishFlags(p: Publication): nat {
    2 * p.qos + 8 * Bit(p.dup) + Bit(p.retain)
  }

  // ----- SUBSCRIBE and UNSUBSCRIBE

  const SUBSCRIBE_TABLE: Table := map[SUB_ID := KId, USER := KUser]
  const UNSUBSCRIBE_TABLE: Table := map[USER := KUser]

  function FiltersSize(fs: seq<Filter>): nat {
    if fs == [] then 0 else 2 + |fs[0].topic| + 1 + FiltersSize(fs[1..])
  }

  predicate FiltersFit(fs: seq<Filter>) {
    forall i :: 0 <= i < |fs| ==> Fits(fs[i].topic)
  }

  function FilterByte(f: Filter): byte {
    f.qos + 4 * Bit(f.noLocal) + 8 * Bit(f.retainAsPublished) + 16 * f.retainHandling
  }

  function PutFilters(fs: seq<Filter>): (b: seq<byte>)
    requires FiltersFit(fs)
    ensures |b| == FiltersSize(fs)
  {
    if fs == [] then [] else PutBytes(fs[0].topic) + ([FilterByte(fs[0])] + PutFilters(fs[1..]))
  }

  /** The subscription identifier is sized without its type byte, and as a variable byte integer. */
  function SubscribePropLen(s: Subscription): nat {
    (if s.subscriptionId.Some? then VarInt.Len(s.subscriptionId.value) else 0) + UsersSize(s.users)
  }

  function SubscribeSize(s: Subscription): nat {
    2 + VarInt.Len(SubscribePropLen(s)) + SubscribePropLen(s) + FiltersSize(s.filters)
  }

  /** User properties are sized but never written. */
  function PutSubscribe(s: Subscription): seq<byte>
    requires FiltersFit(s.filters) && SubscribePropLen(s) <= VarInt.MAX_VARINT
  {
    PutU16(s.id)
    + (VarInt.Put(SubscribePropLen(s))
       + ((if s.subscriptionId.Some? then [SUB_ID] + PutU32(s.subscriptionId.value) else []) + PutFilters(s.filters)))
  }

  function GetFilters(src: seq<byte>): Result<seq<Filter>, DecodeError>
    decreases |src|
  {
    if src == [] then Ok([])
    else
      match GetStr(src)
      case Err(e) => Err(e)
      case Ok(Read(topic, r1)) =>
        if r1 == [] then Err(InvalidLength)
        else
          var v := r1[0] as int;
          if v % 4 > 2 || v / 16 % 4 > 2 then Err(MalformedPacket)
          else
            match GetFilters(r1[1..])
            case Err(e) => Err(e)
            case Ok(fs) => Ok([Filter(topic, v % 4, v / 4 % 2 == 1, v / 8 % 2 == 1, v / 16 % 4)] + fs)
  }

  function GetSubscribe(src: seq<byte>): Result<Subscription, DecodeError> {
    match GetNz16(src)
    case Err(e) => Err(e)
    case Ok(Read(id, r1)) =>
      match GetBlock(SUBSCRIBE_TABLE, r1)
      case Err(e) => Err(e)
      case Ok(Read(ps, r2)) =>
        match GetFilters(r2)
        case Err(e) => Err(e)
        case Ok(fs) => Ok(Subscription(id, if IdsOf(ps) == [] then None else Some(IdsOf(ps)[0]), UsersOf(ps), fs))
  }

  function UnsubscribeSize(u: Unsubscription): nat {
    2 + VarInt.Len(UsersSize(u.users)) + UsersSize(u.users) + TopicsSize(u.topics)
  }

  function PutUnsubscribe(u: Unsubscription): seq<byte>
    requires TopicsFit(u.topics) && UsersSize(u.users) <= VarInt.MAX_VARINT
  {
    PutU16(u.id) + (VarInt.Put(UsersSize(u.users)) + PutTopics(u.topics))
  }

  function GetUnsubscribe(src: seq<byte>): Result<Unsubscription, DecodeError> {
    match GetNz16(src)
    case Err(e) => Err(e)
    case Ok(Read(id, r1)) =>
      match GetBlock(UNSUBSCRIBE_TABLE, r1)
      case Err(e) => Err(e)
      case Ok(Read(ps, r2)) =>
        match GetTopics(r2)
        case Err(e) => Err(e)
        case Ok(ts) => Ok(Unsubscription(id, UsersOf(ps), ts))
  }

  // ----- CONNECT

  const CONNECT_TABLE: Table :=
    map[SESS_EXPIRY_INT := KU32, AUTH_METHOD := KStr, AUTH_DATA := KBin, REQ_PROB_INFO := KBool,
        REQ_RESP_INFO := KBool, RECEIVE_MAX := KNz16, TOPIC_ALIAS_MAX := KU16, USER := KUser, MAX_PACKET_SIZE := KNz32]

  const WILL_TABLE: Table :=
    map[WILL_DELAY_INT := KU32, CORR_DATA := KBin, MSG_EXPIRY_INT := KNz32, CONTENT_TYPE := KStr,
        UTF8_PAYLOAD := KBool, RESP_TOPIC := KStr, USER := KUser]

  /** A boolean that is written only if it differs from its default. */
  function Unless(v: bool, skipIf: bool): Option<bool> {
    if v == skipIf then None else Some(v)
  }

  function ConnectSlots(c: Connection): seq<Slot> {
    [ Slot(SESS_EXPIRY_INT, From32(c.sessionExpiry)),
      Slot(AUTH_METHOD, FromStr(c.authMethod)),
      Slot(AUTH_DATA, FromBin(c.authData)),
      Slot(REQ_PROB_INFO, FromBool(Unless(c.problemInfo, true))),
      Slot(REQ_RESP_INFO, FromBool(Unless(c.responseInfo, false))),
      Slot(RECEIVE_MAX, FromNz16(c.receiveMax)),
      Slot(MAX_PACKET_SIZE, FromNz32(c.maxPacketSize)),
      Slot(TOPIC_ALIAS_MAX, From16(NonZero(c.topicAliasMax))) ]
  }

  function WillSlots(w: Will): seq<Slot> {
    [ Slot(WILL_DELAY_INT, From32(w.delay)),
      Slot(CORR_DATA, FromBin(w.correlationData)),
      Slot(MSG_EXPIRY_INT, FromNz32(w.messageExpiry)),
      Slot(CONTENT_TYPE, FromStr(w.contentType)),
      Slot(UTF8_PAYLOAD, FromBool(w.isUtf8)),
      Slot(RESP_TOPIC, FromStr(w.responseTopic)) ]
  }

  function ConnectPropLen(c: Connection): nat {
    SlotsSize(ConnectSlots(c)) + UsersSize(c.users)
  }

  function WillPropLen(w: Will): nat {
    SlotsSize(WillSlots(w)) + UsersSize(w.users)
  }

  function WillSize(w: Option<Will>): nat {
    if w.None? then 0
    else VarInt.Len(WillPropLen(w.value)) + WillPropLen(w.value) + (2 + |w.value.topic|) + (2 + |w.value.message|)
  }

  function ConnectSize(c: Connection): nat {
    6 + 1 + 1 + 2 + VarInt.Len(ConnectPropLen(c)) + ConnectPropLen(c) + (2 + |c.clientId|)
    + WillSize(c.will) + OptLen(c.username) + OptLen(c.password)
  }

  function ConnectFlags(c: Connection): byte {
    128 * Bit(c.username.Some?) + 64 * Bit(c.password.Some?)
    + (if c.will.Some? then 4 + 32 * Bit(c.will.value.retain) + 8 * c.will.value.qos else 0)
    + 2 * Bit(c.cleanStart)
  }

  predicate ConnectFits(c: Connection) {
    && OptFits(c.authMethod) && OptFits(c.authData) && UsersFit(c.users) && Fits(c.clientId)
    && (c.will.Some? ==> Fits(c.will.value.topic) && Fits(c.will.value.message))
    && OptFits(c.username) && OptFits(c.password)
  }

  /** Only the length of the will's properties is written, not the properties. */
  function PutWill(w: Option<Will>): seq<byte>
    requires w.Some? ==> Fits(w.value.topic) && Fits(w.value.message) && WillPropLen(w.value) <= VarInt.MAX_VARINT
  {
    if w.None? then []
    else VarInt.Put(WillPropLen(w.value)) + (PutBytes(w.value.topic) + PutBytes(w.value.message))
  }

  function ConnectEnd(c: Connection): seq<byte>
    requires ConnectFits(c) && (c.will.Some? ==> WillPropLen(c.will.value) <= VarInt.MAX_VARINT)
  {
    PutBytes(c.clientId) + (PutWill(c.will) + (PutOpt(c.username) + PutOpt(c.password)))
  }

  function ConnectHead(c: Connection): (b: seq<byte>)
    ensures |b| == 10
  {
    PutBytes(ProtocolName()) + [LEVEL_5, ConnectFlags(c)] + PutU16(c.keepAlive)
  }

  function PutConnect(c: Connection): seq<byte>
    requires ConnectFits(c) && (c.will.Some? ==> WillPropLen(c.will.value) <= VarInt.MAX_VARINT)
    requires Writable(BlockProps(ConnectSlots(c), c.users, None)) && ConnectPropLen(c) <= VarInt.MAX_VARINT
  {
    ConnectHead(c)
    + (VarInt.Put(ConnectPropLen(c)) + PutProps(BlockProps(ConnectSlots(c), c.users, None)) + ConnectEnd(c))
  }

  function BuildWill(qos: QoS, retain: bool, topic: Str, message: seq<byte>, ps: seq<Prop>): Will {
    Will(qos, retain, topic, message, To32(Find(ps, WILL_DELAY_INT)), ToBin(Find(ps, CORR_DATA)),
         ToNz32(Find(ps, MSG_EXPIRY_INT)), ToStr(Find(ps, CONTENT_TYPE)), UsersOf(ps),
         ToBool(Find(ps, UTF8_PAYLOAD)), ToStr(Find(ps, RESP_TOPIC)))
  }

  function GetWill(flags: byte, src: seq<byte>): Decoded<Option<Will>> {
    if flags / 4 % 2 == 0 then Ok(Read(None, src))
    else
      match GetBlock(WILL_TABLE, src)
      case Err(e) => Err(e)
      case Ok(Read(ps, r1)) =>
        match GetStr(r1)
        case Err(e) => Err(e)
        case Ok(Read(topic, r2)) =>
          match GetBytes(r2)
          case Err(e) => Err(e)
          case Ok(Read(message, r3)) =>
            if flags / 8 % 4 > 2 then Err(MalformedPacket)
            else Ok(Read(Some(BuildWill(flags / 8 % 4, flags / 32 % 2 == 1, topic, message, ps)), r3))
  }

  function OrBool(o: Option<bool>, d: bool): bool {
    if o.Some? then o.value else d
  }

  function BuildConnect(flags: byte, keepAlive: u16, ps: seq<Prop>, clientId: Str, will: Option<Will>,
                        username: Option<Str>, password: Option<seq<byte>>): Connection {
    Connection(flags / 2 % 2 == 1, keepAlive, To32(Find(ps, SESS_EXPIRY_INT)), ToStr(Find(ps, AUTH_METHOD)),
               ToBin(Find(ps, AUTH_DATA)), OrBool(ToBool(Find(ps, REQ_PROB_INFO)), true),
               OrBool(ToBool(Find(ps, REQ_RESP_INFO)), false), ToNz16(Find(ps, RECEIVE_MAX)),
               OrZero(To16(Find(ps, TOPIC_ALIAS_MAX))), UsersOf(ps), ToNz32(Find(ps, MAX_PACKET_SIZE)),
               will, clientId, username, password)
  }

  function GetConnectEnd(flags: byte, keepAlive: u16, ps: seq<Prop>, src: seq<byte>): Result<Connection, DecodeError> {
    match GetStr(src)
    case Err(e) => Err(e)
    case Ok(Read(clientId, r1)) =>
      if clientId == [] && flags / 2 % 2 == 0 then Err(InvalidClientId)
      else
        match GetWill(flags, r1)
        case Err(e) => Err(e)
        case Ok(Read(will, r2)) =>
          match GetOptStr(flags / 128 == 1, r2)
          case Err(e) => Err(e)
          case Ok(Read(username, r3)) =>
            match GetOptBytes(flags / 64 % 2 == 1, r3)
            case Err(e) => Err(e)
            case Ok(Read(password, _)) =>
              Ok(BuildConnect(flags, keepAlive, ps, clientId, will, username, password))
  }

  function GetConnect(src: seq<byte>): Result<Connection, DecodeError> {
    if |src| < 10 then Err(InvalidLength)
    else if src[..6] != PutBytes(ProtocolName()) then Err(InvalidProtocol)
    else if src[6] != LEVEL_5 then Err(UnsupportedProtocolLevel)
    else if src[7] % 2 == 1 then Err(ConnectReservedFlagSet)
    else
      match GetBlock(CONNECT_TABLE, src[10..])
      case Err(e) => Err(e)
      case Ok(Read(ps, rest)) => GetConnectEnd(src[7], src[8] as int * 256 + src[9], ps, rest)
  }
}
