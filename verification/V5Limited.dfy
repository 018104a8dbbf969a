/**
  The MQTT 5.0 packets whose user properties and reason string are cut to a size limit:
  CONNACK, PUBACK, PUBREC, PUBREL, PUBCOMP, SUBACK, UNSUBACK, DISCONNECT and AUTH.
 */
module V5Limited {
  import opened Wrappers
  import opened Words
  import opened Bytes
  import opened Props
  import opened LimitedProps
  import opened PropBlocks
  import opened V5Packets

  // ----- The layout they share: some bytes, a property block, some bytes

  datatype Layout = Layout(
    head: seq<byte>,
    slots: seq<Slot>,
    users: seq<UserProp>,
    reason: Option<Str>,
    tail: seq<byte>)

  predicate IsLimited(p: Packet) {
    p.ConnectAck? || p.PublishAck? || p.PublishReceived? || p.PublishRelease? || p.PublishComplete?
    || p.SubscribeAck? || p.UnsubscribeAck? || p.Disconnect? || p.Auth?
  }

  function ConnAckSlots(a: ConnAck): seq<Slot> {
    [ Slot(SESS_EXPIRY_INT, From32(a.sessionExpiry)),
      Slot(RECEIVE_MAX, FromNz16(a.receiveMax)),
      Slot(MAX_QOS, FromQos(a.maxQos)),
      Slot(RETAIN_AVAIL, FromBool(a.retainAvailable)),
      Slot(MAX_PACKET_SIZE, From32(a.maxPacketSize)),
      Slot(ASSND_CLIENT_ID, FromStr(a.assignedClientId)),
      Slot(TOPIC_ALIAS_MAX, From16(NonZero(a.topicAliasMax))),
      Slot(WILDCARD_SUB_AVAIL, FromBool(a.wildcardSubs)),
      Slot(SUB_IDS_AVAIL, FromBool(a.subscriptionIds)),
      Slot(SHARED_SUB_AVAIL, FromBool(a.sharedSubs)),
      Slot(SERVER_KA, From16(a.serverKeepAlive)),
      Slot(RESP_INFO, FromStr(a.responseInfo)),
      Slot(SERVER_REF, FromStr(a.serverReference)),
      Slot(AUTH_METHOD, FromStr(a.authMethod)),
      Slot(AUTH_DATA, FromBin(a.authData)) ]
  }

  function DisconnectSlots(d: Disconnection): seq<Slot> {
    [Slot(SESS_EXPIRY_INT, From32(d.sessionExpiry)), Slot(SERVER_REF, FromStr(d.serverReference))]
  }

  function AuthSlots(a: Authentication): seq<Slot> {
    [Slot(AUTH_METHOD, FromStr(a.authMethod)), Slot(AUTH_DATA, FromBin(a.data))]
  }

  function LayoutOf(p: Packet): Layout
    requires IsLimited(p)
  {
    match p
    case ConnectAck(a) => Layout([if a.sessionPresent then 1 else 0, a.code], ConnAckSlots(a), a.users, a.reason, [])
    case PublishAck(a) => Layout(PutU16(a.id) + [a.code], [], a.users, a.reason, [])
    case PublishReceived(a) => Layout(PutU16(a.id) + [a.code], [], a.users, a.reason, [])
    case PublishRelease(a) => Layout(PutU16(a.id) + [a.code], [], a.users, a.reason, [])
    case PublishComplete(a) => Layout(PutU16(a.id) + [a.code], [], a.users, a.reason, [])
    case SubscribeAck(a) => Layout(PutU16(a.id), [], a.users, a.reason, a.status)
    case UnsubscribeAck(a) => Layout(PutU16(a.id), [], a.users, a.reason, a.status)
    case Disconnect(d) => Layout([d.code], DisconnectSlots(d), d.users, d.reason, [])
    case Auth(a) => Layout([a.code], AuthSlots(a), a.users, a.reason, [])
  }

  // ----- The size pass

  function ReduceLimit(limit: u32, reduction: nat): nat {
    if reduction > limit then 0 else limit - reduction
  }

  /** Subtraction of 32-bit words, which wraps around in a release build. */
  function Wrap32(n: int): u32 {
    n % U32
  }

  /** The acknowledgement packets keep four bytes for the length of their properties. */
  function AckLimit(limit: nat): nat {
    if limit < 4 then 0 else limit - 4
  }

  /** The room that is left for user properties and the reason string. */
  function Room(p: Packet, limit: u32): nat
    requires IsLimited(p)
  {
    match p
    case ConnectAck(a) => ReduceLimit(limit, 2 + 4 + SlotsSize(ConnAckSlots(a)))
    case PublishAck(_) => AckLimit(Wrap32(limit - 3 - 4))
    case PublishReceived(_) => AckLimit(Wrap32(limit - 3 - 4))
    case PublishRelease(_) => AckLimit(Wrap32(limit - 3 - 4))
    case PublishComplete(_) => AckLimit(Wrap32(limit - 3 - 4))
    case SubscribeAck(a) => AckLimit(Wrap32(limit - 2 - |a.status|))
    case UnsubscribeAck(a) => AckLimit(ReduceLimit(limit, 2 + |a.status|))
    case Disconnect(d) => ReduceLimit(limit, SlotsSize(DisconnectSlots(d)) + 1 + 4)
    case Auth(a) => ReduceLimit(limit, SlotsSize(AuthSlots(a)) + 1 + 4)
  }

  function LimitedSize(p: Packet, limit: u32): nat
    requires IsLimited(p)
  {
    if p.SubscribeAck? && |p.subAck.status| > U32 - 3 then USIZE - 1
    else
      var l := LayoutOf(p);
      |l.head| + BlockSize(l.slots, l.users, l.reason, Room(p, limit)) + |l.tail|
  }

  /** The packet with what does not fit left out. */
  function Truncated(p: Packet, limit: u32): Packet
    requires IsLimited(p)
  {
    var l := LayoutOf(p);
    var users := KeptUsers(l.users, Room(p, limit));
    var reason := KeptReason(l.users, l.reason, Room(p, limit));
    match p
    case ConnectAck(a) => ConnectAck(a.(users := users, reason := reason))
    case PublishAck(a) => PublishAck(a.(users := users, reason := reason))
    case PublishReceived(a) => PublishReceived(a.(users := users, reason := reason))
    case PublishRelease(a) => PublishRelease(a.(users := users, reason := reason))
    case PublishComplete(a) => PublishComplete(a.(users := users, reason := reason))
    case SubscribeAck(a) => SubscribeAck(a.(users := users, reason := reason))
    case UnsubscribeAck(a) => UnsubscribeAck(a.(users := users, reason := reason))
    case Disconnect(d) => Disconnect(d.(users := users, reason := reason))
    case Auth(a) => Auth(a.(users := users, reason := reason))
  }

  // ----- The write pass

  /** The bytes that the write pass has for the property block of a packet of the given size. */
  function BlockBytes(l: Layout, size: nat): nat {
    if |l.head| + |l.tail| <= size then size - |l.head| - |l.tail| else 0
  }

  /** The write pass can write a packet of the given size: every string it reaches fits its length bytes. */
  predicate Writes(l: Layout, size: nat) {
    && Writable(SlotProps(l.slots)) && Announces(BlockBytes(l, size))
    && ReachedFit(l.users, l.reason, BlockLeft(l.slots, BlockBytes(l, size)))
  }

  function PutLimited(l: Layout, size: nat): seq<byte>
    requires Writes(l, size)
  {
    l.head + PutBlock(l.slots, l.users, l.reason, BlockBytes(l, size)) + l.tail
  }

  // ----- Decoding

  const ACK_TABLE: Table := map[REASON_STRING := KStr, USER := KUser]

  const CONNACK_TABLE: Table :=
    map[SESS_EXPIRY_INT := KU32, RECEIVE_MAX := KNz16, MAX_QOS := KQos, RETAIN_AVAIL := KBool,
        MAX_PACKET_SIZE := KU32, ASSND_CLIENT_ID := KStr, TOPIC_ALIAS_MAX := KU16, REASON_STRING := KStr,
        USER := KUser, WILDCARD_SUB_AVAIL := KBool, SUB_IDS_AVAIL := KBool, SHARED_SUB_AVAIL := KBool,
        SERVER_KA := KU16, RESP_INFO := KStr, SERVER_REF := KStr, AUTH_METHOD := KStr, AUTH_DATA := KBin]

  const DISCONNECT_TABLE: Table :=
    map[SESS_EXPIRY_INT := KU32, REASON_STRING := KStr, USER := KUser, SERVER_REF := KStr]

  const AUTH_TABLE: Table :=
    map[AUTH_METHOD := KStr, AUTH_DATA := KBin, REASON_STRING := KStr, USER := KUser]

  /** A property block that ends the packet. */
  function GetLastBlock(table: Table, src: seq<byte>): Result<seq<Prop>, DecodeError> {
    match GetBlock(table, src)
    case Err(e) => Err(e)
    case Ok(Read(ps, rest)) => if rest != [] then Err(InvalidLength) else Ok(ps)
  }

  function BuildConnAck(present: bool, code: byte, ps: seq<Prop>): ConnAck {
    ConnAck(present, code, To32(Find(ps, SESS_EXPIRY_INT)), ToNz16(Find(ps, RECEIVE_MAX)), ToQos(Find(ps, MAX_QOS)),
            ToBool(Find(ps, RETAIN_AVAIL)), To32(Find(ps, MAX_PACKET_SIZE)), ToStr(Find(ps, ASSND_CLIENT_ID)),
            OrZero(To16(Find(ps, TOPIC_ALIAS_MAX))), ToStr(Find(ps, REASON_STRING)), UsersOf(ps),
            ToBool(Find(ps, WILDCARD_SUB_AVAIL)), ToBool(Find(ps, SUB_IDS_AVAIL)), ToBool(Find(ps, SHARED_SUB_AVAIL)),
            To16(Find(ps, SERVER_KA)), ToStr(Find(ps, RESP_INFO)), ToStr(Find(ps, SERVER_REF)),
            ToStr(Find(ps, AUTH_METHOD)), ToBin(Find(ps, AUTH_DATA)))
  }

  function GetConnAck(src: seq<byte>): Result<ConnAck, DecodeError> {
    if |src| < 2 then Err(InvalidLength)
    else if src[0] > 1 then Err(ConnAckReservedFlagSet)
    else if !ConnAckCode(src[1]) then Err(MalformedPacket)
    else
      match GetLastBlock(CONNACK_TABLE, src[2..])
      case Err(e) => Err(e)
      case Ok(ps) => Ok(BuildConnAck(src[0] == 1, src[1], ps))
  }

  function BuildPubAck(id: nz16, code: byte, ps: seq<Prop>): PubAck {
    PubAck(id, code, UsersOf(ps), ToStr(Find(ps, REASON_STRING)))
  }

  /** `release` selects the reason codes of PUBREL and PUBCOMP. */
  function GetPubAck(release: bool, src: seq<byte>): Result<PubAck, DecodeError> {
    match GetNz16(src)
    case Err(e) => Err(e)
    case Ok(Read(id, rest)) =>
      if rest == [] then Ok(PubAck(id, 0, [], None))
      else if !(if release then PubRelCode(rest[0]) else PubAckCode(rest[0])) then Err(MalformedPacket)
      else
        match GetLastBlock(ACK_TABLE, rest[1..])
        case Err(e) => Err(e)
        case Ok(ps) => Ok(BuildPubAck(id, rest[0], ps))
  }

  predicate StatusOk(unsub: bool, status: seq<byte>) {
    forall i :: 0 <= i < |status| ==> if unsub then UnsubAckCode(status[i]) else SubAckCode(status[i])
  }

  function GetSubAck(unsub: bool, src: seq<byte>): Result<SubAck, DecodeError> {
    match GetNz16(src)
    case Err(e) => Err(e)
    case Ok(Read(id, r1)) =>
      match GetBlock(ACK_TABLE, r1)
      case Err(e) => Err(e)
      case Ok(Read(ps, status)) =>
        if !StatusOk(unsub, status) then Err(MalformedPacket)
        else Ok(SubAck(id, UsersOf(ps), ToStr(Find(ps, REASON_STRING)), status))
  }

  function BuildDisconnect(code: byte, ps: seq<Prop>): Disconnection {
    Disconnection(code, To32(Find(ps, SESS_EXPIRY_INT)), ToStr(Find(ps, SERVER_REF)),
                  ToStr(Find(ps, REASON_STRING)), UsersOf(ps))
  }

  function GetDisconnect(src: seq<byte>): Result<Disconnection, DecodeError> {
    if src == [] then Ok(Disconnection(0, None, None, None, []))
    else if !DisconnectCode(src[0]) then Err(MalformedPacket)
    else
      match GetLastBlock(DISCONNECT_TABLE, src[1..])
      case Err(e) => Err(e)
      case Ok(ps) => Ok(BuildDisconnect(src[0], ps))
  }

  function BuildAuth(code: byte, ps: seq<Prop>): Authentication {
    Authentication(code, ToStr(Find(ps, AUTH_METHOD)), ToBin(Find(ps, AUTH_DATA)),
                   ToStr(Find(ps, REASON_STRING)), UsersOf(ps))
  }

  function GetAuth(src: seq<byte>): Result<Authentication, DecodeError> {
    if src == [] then Ok(Authentication(0, None, None, None, []))
    else if |src| <= 1 then Err(InvalidLength)
    else if !AuthCode(src[0]) then Err(MalformedPacket)
    else
      match GetLastBlock(AUTH_TABLE, src[1..])
      case Err(e) => Err(e)
      case Ok(ps) => Ok(BuildAuth(src[0], ps))
  }
}
