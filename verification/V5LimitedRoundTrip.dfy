/** The two passes of the size-limited packets, against the decoder. */
module V5LimitedRoundTrip {
  import opened Wrappers
  import opened Words
  import opened Bytes
  import opened PacketTypes
  import opened Props
  import opened LimitedProps
  import opened PropBlocks
  import opened V5Packets
  import opened V5Limited
  import VarInt

  function TableOf(p: Packet): Table
    requires IsLimited(p)
  {
    if p.ConnectAck? then CONNACK_TABLE
    else if p.Disconnect? then DISCONNECT_TABLE
    else if p.Auth? then AUTH_TABLE
    else ACK_TABLE
  }

  /** An optional value has the kind of its property. */
  ghost predicate May(k: Kind, o: Option<Val>) {
    o.Some? ==> Suits(k, o.value)
  }

  lemma FieldsSuit(b: Option<bool>, q: Option<QoS>, n: Option<u16>, z: Option<nz16>, w: Option<u32>, y: Option<nz32>,
                   s: Option<Str>, d: Option<seq<byte>>)
    ensures May(KBool, FromBool(b)) && May(KQos, FromQos(q)) && May(KU16, From16(n)) && May(KNz16, FromNz16(z))
    ensures May(KU32, From32(w)) && May(KNz32, FromNz32(y)) && May(KStr, FromStr(s)) && May(KBin, FromBin(d))
  {
  }

  lemma ConnAckFields(a: ConnAck)
    ensures forall i :: 0 <= i < |ConnAckSlots(a)| ==>
              && ConnAckSlots(a)[i].id in CONNACK_TABLE
              && May(CONNACK_TABLE[ConnAckSlots(a)[i].id], ConnAckSlots(a)[i].val)
  {
    hide From32, FromNz16, FromNz32, FromQos, FromBool, FromStr, FromBin, From16, NonZero, Suits, May;
    FieldsSuit(a.retainAvailable, a.maxQos, NonZero(a.topicAliasMax), a.receiveMax, a.sessionExpiry, None,
               a.assignedClientId, a.authData);
    FieldsSuit(a.wildcardSubs, None, a.serverKeepAlive, None, a.maxPacketSize, None, a.responseInfo, None);
    FieldsSuit(a.subscriptionIds, None, None, None, None, None, a.serverReference, None);
    FieldsSuit(a.sharedSubs, None, None, None, None, None, a.authMethod, None);
  }

  lemma ConnAckSlotsOk(a: ConnAck)
    ensures SlotsOk(CONNACK_TABLE, ConnAckSlots(a))
  {
    hide From32, FromNz16, FromNz32, FromQos, FromBool, FromStr, FromBin, From16, NonZero, Suits;
    ConnAckFields(a);
  }

  lemma SmallSlotsOk(d: Disconnection, a: Authentication)
    ensures SlotsOk(DISCONNECT_TABLE, DisconnectSlots(d))
    ensures SlotsOk(AUTH_TABLE, AuthSlots(a))
    ensures SlotsOk(ACK_TABLE, [])
  {
    hide From32, FromStr, FromBin, Suits;
    FieldsSuit(None, None, None, None, d.sessionExpiry, None, d.serverReference, None);
    FieldsSuit(None, None, None, None, None, None, a.authMethod, a.data);
  }

  lemma LayoutOk(p: Packet)
    requires IsLimited(p)
    ensures SlotsOk(TableOf(p), LayoutOf(p).slots)
    ensures REASON_STRING in TableOf(p) && TableOf(p)[REASON_STRING] == KStr
  {
    hide ConnAckSlots, DisconnectSlots, AuthSlots, SlotsOk;
    if p.ConnectAck? { ConnAckSlotsOk(p.connAck); }
    SmallSlotsOk(if p.Disconnect? then p.disconnection else Disconnection(0, None, None, None, []),
                 if p.Auth? then p.authentication else Authentication(0, None, None, None, []));
  }

  /** The reason codes that the packet's type allows. */
  predicate CodesOk(p: Packet)
    requires IsLimited(p)
  {
    match p
    case ConnectAck(a) => ConnAckCode(a.code)
    case PublishAck(a) => PubAckCode(a.code)
    case PublishReceived(a) => PubAckCode(a.code)
    case PublishRelease(a) => PubRelCode(a.code)
    case PublishComplete(a) => PubRelCode(a.code)
    case SubscribeAck(a) => StatusOk(false, a.status)
    case UnsubscribeAck(a) => StatusOk(true, a.status)
    case Disconnect(d) => DisconnectCode(d.code)
    case Auth(a) => AuthCode(a.code)
  }

  /** The kept properties of a packet, as they are written. */
  function KeptBlock(p: Packet, limit: u32): seq<Prop>
    requires IsLimited(p)
  {
    var l := LayoutOf(p);
    BlockProps(l.slots, KeptUsers(l.users, Room(p, limit)), KeptReason(l.users, l.reason, Room(p, limit)))
  }

  /** A size that the codec lets through. */
  predicate Sendable(p: Packet, limit: u32)
    requires IsLimited(p)
  {
    LimitedSize(p, limit) <= VarInt.MAX_VARINT
  }

  /** Every field that is kept under the limit fits its length bytes. */
  predicate FieldsFit(p: Packet, limit: u32)
    requires IsLimited(p)
  {
    var l := LayoutOf(p);
    SlotsFit(l.slots) && KeptFits(l.users, l.reason, Room(p, limit))
  }

  /** The size pass leaves the property block the bytes that it counted for it. */
  lemma LayoutBlock(p: Packet, limit: u32)
    requires IsLimited(p) && Sendable(p, limit)
    ensures var l := LayoutOf(p);
            && BlockBytes(l, LimitedSize(p, limit)) == BlockSize(l.slots, l.users, l.reason, Room(p, limit)) >= 1
            && BlockLen(l.slots, l.users, l.reason, Room(p, limit)) <= VarInt.MAX_VARINT
            && |l.head| + BlockBytes(l, LimitedSize(p, limit)) + |l.tail| == LimitedSize(p, limit)
  {
  }

  /** The write pass succeeds exactly if every kept field fits its length bytes. */
  lemma WritesIff(p: Packet, limit: u32)
    requires IsLimited(p) && Sendable(p, limit)
    ensures Writes(LayoutOf(p), LimitedSize(p, limit)) <==> FieldsFit(p, limit)
  {
    hide LayoutOf, Room, SlotsOk, SlotProps, LimitedSize, OptSize, SlotsSize, ReachedFit, KeptFits, BlockLeft;
    hide VarInt.Len, VarInt.FromSize, SlotsFit, Writable;
    var l := LayoutOf(p);
    LayoutOk(p);
    LayoutBlock(p, limit);
    if Writable(SlotProps(l.slots)) {
      WritableSlotsFit(l.slots);
    }
    if SlotsFit(l.slots) {
      SlotPropsWritable(TableOf(p), l.slots);
      LeftIsOptSize(l.slots, l.users, l.reason, Room(p, limit));
      ReachesKept(l.users, l.reason, Room(p, limit));
    }
  }

  /** The layout's three parts, and what a reader makes of the middle one. */
  lemma LayoutTwoPass(p: Packet, limit: u32) returns (block: seq<byte>)
    requires IsLimited(p) && FieldsFit(p, limit) && Sendable(p, limit)
    ensures var l := LayoutOf(p);
            var size := LimitedSize(p, limit);
            && Writes(l, size)
            && PutLimited(l, size) == l.head + block + l.tail
            && |PutLimited(l, size)| == size
            && block != []
            && GetBlock(TableOf(p), block + l.tail) == Ok(Read(KeptBlock(p, limit), l.tail))
  {
    hide LayoutOf, Room, SlotsOk, SlotProps, GetBlock, PutBlock, BlockProps, OptSize, SlotsSize, KeptUsers, KeptReason;
    hide LimitedSize, BlockSize, BlockLen, BlockBytes, KeptFits, SlotsFit;
    LayoutOk(p);
    LayoutBlock(p, limit);
    WritesIff(p, limit);
    var l := LayoutOf(p);
    BlockTwoPass(TableOf(p), l.slots, l.users, l.reason, Room(p, limit), l.tail);
    var size := BlockSize(l.slots, l.users, l.reason, Room(p, limit));
    block := PutBlock(l.slots, l.users, l.reason, size);
  }

  /** What a reader looks up in the kept block. */
  lemma KeptLookup(p: Packet, limit: u32)
    requires IsLimited(p)
    ensures var ps := KeptBlock(p, limit);
            var l := LayoutOf(p);
            var reason := KeptReason(l.users, l.reason, Room(p, limit));
            && (forall i :: 0 <= i < |l.slots| ==> Find(ps, l.slots[i].id) == l.slots[i].val)
            && ToStr(Find(ps, REASON_STRING)) == reason
            && UsersOf(ps) == KeptUsers(l.users, Room(p, limit))
  {
    hide LayoutOf, Room, SlotsOk, SlotProps, BlockProps, KeptUsers, KeptReason;
    LayoutOk(p);
    var l := LayoutOf(p);
    BlockLookup(TableOf(p), l.slots, KeptUsers(l.users, Room(p, limit)), KeptReason(l.users, l.reason, Room(p, limit)));
  }

  /** The body decoder of each size-limited packet. */
  function GetLimited(p: Packet, src: seq<byte>): Result<Packet, DecodeError>
    requires IsLimited(p)
  {
    match p
    case ConnectAck(_) => (match GetConnAck(src) case Err(e) => Err(e) case Ok(a) => Ok(ConnectAck(a)))
    case PublishAck(_) => (match GetPubAck(false, src) case Err(e) => Err(e) case Ok(a) => Ok(PublishAck(a)))
    case PublishReceived(_) => (match GetPubAck(false, src) case Err(e) => Err(e) case Ok(a) => Ok(PublishReceived(a)))
    case PublishRelease(_) => (match GetPubAck(true, src) case Err(e) => Err(e) case Ok(a) => Ok(PublishRelease(a)))
    case PublishComplete(_) => (match GetPubAck(true, src) case Err(e) => Err(e) case Ok(a) => Ok(PublishComplete(a)))
    case SubscribeAck(_) => (match GetSubAck(false, src) case Err(e) => Err(e) case Ok(a) => Ok(SubscribeAck(a)))
    case UnsubscribeAck(_) => (match GetSubAck(true, src) case Err(e) => Err(e) case Ok(a) => Ok(UnsubscribeAck(a)))
    case Disconnect(_) => (match GetDisconnect(src) case Err(e) => Err(e) case Ok(d) => Ok(Disconnect(d)))
    case Auth(_) => (match GetAuth(src) case Err(e) => Err(e) case Ok(a) => Ok(Auth(a)))
  }

  lemma ConnAckBuilds(p: Packet, limit: u32)
    requires p.ConnectAck?
    ensures ConnectAck(BuildConnAck(p.connAck.sessionPresent, p.connAck.code, KeptBlock(p, limit)))
         == Truncated(p, limit)
  {
    hide KeptBlock, KeptUsers, KeptReason, Room, Find, UsersOf;
    KeptLookup(p, limit);
    var a, ps := p.connAck, KeptBlock(p, limit);
    var slots := ConnAckSlots(a);
    assert slots == LayoutOf(p).slots;
    ConnAckSlotLookup(a, ps);
  }

  /** Each field comes back from its own slot. */
  lemma ConnAckSlotLookup(a: ConnAck, ps: seq<Prop>)
    requires forall i :: 0 <= i < |ConnAckSlots(a)| ==> Find(ps, ConnAckSlots(a)[i].id) == ConnAckSlots(a)[i].val
    ensures BuildConnAck(a.sessionPresent, a.code, ps)
         == a.(users := UsersOf(ps), reason := ToStr(Find(ps, REASON_STRING)))
  {
    hide Find, UsersOf, Utf8;
    var s := ConnAckSlots(a);
    assert Find(ps, s[0].id) == s[0].val && Find(ps, s[1].id) == s[1].val && Find(ps, s[2].id) == s[2].val;
    assert Find(ps, s[3].id) == s[3].val && Find(ps, s[4].id) == s[4].val && Find(ps, s[5].id) == s[5].val;
    assert Find(ps, s[6].id) == s[6].val && Find(ps, s[7].id) == s[7].val && Find(ps, s[8].id) == s[8].val;
    assert Find(ps, s[9].id) == s[9].val && Find(ps, s[10].id) == s[10].val && Find(ps, s[11].id) == s[11].val;
    assert Find(ps, s[12].id) == s[12].val && Find(ps, s[13].id) == s[13].val && Find(ps, s[14].id) == s[14].val;
  }

  lemma LastBlock(table: Table, block: seq<byte>, ps: seq<Prop>)
    requires GetBlock(table, block + []) == Ok(Read(ps, []))
    ensures GetLastBlock(table, block) == Ok(ps)
  {
    assert block + [] == block;
  }

  lemma ConnAckDecodes(p: Packet, limit: u32, block: seq<byte>)
    requires p.ConnectAck? && CodesOk(p)
    requires GetBlock(CONNACK_TABLE, block + []) == Ok(Read(KeptBlock(p, limit), []))
    ensures GetLimited(p, LayoutOf(p).head + block) == Ok(Truncated(p, limit))
  {
    hide KeptBlock, Truncated, GetBlock, ConnAckSlots, BuildConnAck;
    LastBlock(CONNACK_TABLE, block, KeptBlock(p, limit));
    ConnAckBuilds(p, limit);
    assert (LayoutOf(p).head + block)[2..] == block;
  }

  lemma PubAckDecodes(p: Packet, limit: u32, block: seq<byte>)
    requires p.PublishAck? || p.PublishReceived? || p.PublishRelease? || p.PublishComplete?
    requires CodesOk(p) && block != []
    requires GetBlock(ACK_TABLE, block + []) == Ok(Read(KeptBlock(p, limit), []))
    ensures GetLimited(p, LayoutOf(p).head + block) == Ok(Truncated(p, limit))
  {
    hide KeptBlock, GetBlock, Find, UsersOf, KeptUsers, KeptReason, Room, PubAckCode, PubRelCode, GetNz16, PutU16;
    LastBlock(ACK_TABLE, block, KeptBlock(p, limit));
    KeptLookup(p, limit);
    var a := p.pubAck;
    U16RoundTrip(a.id, [a.code] + block);
    assert LayoutOf(p).head + block == PutU16(a.id) + ([a.code] + block);
    assert ([a.code] + block)[1..] == block;
  }

  lemma SubAckDecodes(p: Packet, limit: u32, block: seq<byte>)
    requires p.SubscribeAck? || p.UnsubscribeAck?
    requires CodesOk(p)
    requires GetBlock(ACK_TABLE, block + LayoutOf(p).tail) == Ok(Read(KeptBlock(p, limit), LayoutOf(p).tail))
    ensures GetLimited(p, LayoutOf(p).head + block + LayoutOf(p).tail) == Ok(Truncated(p, limit))
  {
    hide KeptBlock, GetBlock, Find, UsersOf, KeptUsers, KeptReason, Room, GetNz16, PutU16, StatusOk;
    KeptLookup(p, limit);
    var a := p.subAck;
    U16RoundTrip(a.id, block + a.status);
    assert LayoutOf(p).head + block + LayoutOf(p).tail == PutU16(a.id) + (block + a.status);
  }

  lemma DisconnectDecodes(p: Packet, limit: u32, block: seq<byte>)
    requires p.Disconnect? && CodesOk(p)
    requires GetBlock(DISCONNECT_TABLE, block + []) == Ok(Read(KeptBlock(p, limit), []))
    ensures GetLimited(p, LayoutOf(p).head + block) == Ok(Truncated(p, limit))
  {
    hide KeptBlock, GetBlock, Find, UsersOf, KeptUsers, KeptReason, Room, DisconnectCode;
    LastBlock(DISCONNECT_TABLE, block, KeptBlock(p, limit));
    KeptLookup(p, limit);
    var s := DisconnectSlots(p.disconnection);
    assert s == LayoutOf(p).slots && |s| == 2;
    assert Find(KeptBlock(p, limit), s[0].id) == s[0].val && Find(KeptBlock(p, limit), s[1].id) == s[1].val;
    assert (LayoutOf(p).head + block)[1..] == block;
  }

  lemma AuthDecodes(p: Packet, limit: u32, block: seq<byte>)
    requires p.Auth? && CodesOk(p) && block != []
    requires GetBlock(AUTH_TABLE, block + []) == Ok(Read(KeptBlock(p, limit), []))
    ensures GetLimited(p, LayoutOf(p).head + block) == Ok(Truncated(p, limit))
  {
    hide KeptBlock, GetBlock, Find, UsersOf, KeptUsers, KeptReason, Room, AuthCode;
    LastBlock(AUTH_TABLE, block, KeptBlock(p, limit));
    KeptLookup(p, limit);
    var s := AuthSlots(p.authentication);
    assert s == LayoutOf(p).slots && |s| == 2;
    assert Find(KeptBlock(p, limit), s[0].id) == s[0].val && Find(KeptBlock(p, limit), s[1].id) == s[1].val;
    assert (LayoutOf(p).head + block)[1..] == block;
  }

  lemma LimitedDecodes(p: Packet, limit: u32, block: seq<byte>)
    requires IsLimited(p) && CodesOk(p) && block != []
    requires GetBlock(TableOf(p), block + LayoutOf(p).tail) == Ok(Read(KeptBlock(p, limit), LayoutOf(p).tail))
    ensures GetLimited(p, LayoutOf(p).head + block + LayoutOf(p).tail) == Ok(Truncated(p, limit))
  {
    hide KeptBlock, GetBlock, GetLimited, Truncated, ConnAckSlots, DisconnectSlots, AuthSlots;
    if p.SubscribeAck? || p.UnsubscribeAck? {
      SubAckDecodes(p, limit, block);
    } else {
      assert LayoutOf(p).tail == [];
      assert LayoutOf(p).head + block + [] == LayoutOf(p).head + block;
      if p.ConnectAck? { ConnAckDecodes(p, limit, block); }
      else if p.Disconnect? { DisconnectDecodes(p, limit, block); }
      else if p.Auth? { AuthDecodes(p, limit, block); }
      else { PubAckDecodes(p, limit, block); }
    }
  }

  /**
    The two-pass encoding: told the size that the size pass computed for a limit, the write
    pass writes exactly that many bytes, and they decode to the same packet with its user
    properties cut to those that fit and its reason string kept if it still fits after all
    of them.
   */
  lemma TwoPass(p: Packet, limit: u32)
    requires IsLimited(p) && CodesOk(p) && FieldsFit(p, limit) && Sendable(p, limit)
    ensures var l := LayoutOf(p);
            var size := LimitedSize(p, limit);
            && Writes(l, size)
            && |PutLimited(l, size)| == size
            && GetLimited(p, PutLimited(l, size)) == Ok(Truncated(p, limit))
  {
    hide KeptBlock, GetBlock, GetLimited, Truncated, LayoutOf, SlotProps, PutLimited, CodesOk, FieldsFit;
    hide LimitedSize, Writes;
    var block := LayoutTwoPass(p, limit);
    LimitedDecodes(p, limit, block);
  }

  /** The bytes that are written whatever the limit, with four bytes for the length of the properties. */
  function Mandatory(p: Packet): nat
    requires IsLimited(p)
  {
    var l := LayoutOf(p);
    |l.head| + 4 + SlotsSize(l.slots) + |l.tail|
  }

  predicate IsPubAck(p: Packet) {
    p.PublishAck? || p.PublishReceived? || p.PublishRelease? || p.PublishComplete?
  }

  /** What PUBACK, PUBREC, PUBREL and PUBCOMP hold back for the length of their properties a second time. */
  function Reserve(p: Packet): nat {
    if IsPubAck(p) then 4 else 0
  }

  /**
    The bytes left for optional properties: what the limit leaves after the mandatory part, but
    under a limit that does not hold the part before the properties the subtraction of an
    acknowledgement packet wraps around.
   */
  function Spare(p: Packet, limit: u32): nat
    requires IsLimited(p)
  {
    if Mandatory(p) + Reserve(p) <= limit then limit - Mandatory(p) - Reserve(p)
    else if IsPubAck(p) && limit < Mandatory(p) then U32 + limit - Mandatory(p) - Reserve(p)
    else if p.SubscribeAck? && limit < 2 + |p.subAck.status| then AckLimit(Wrap32(limit - 2 - |p.subAck.status|))
    else 0
  }

  lemma RoomIsSpare(p: Packet, limit: u32)
    requires IsLimited(p)
    ensures Room(p, limit) == Spare(p, limit)
  {
  }

  /**
    What the size pass keeps: all but user properties and reason string; of the user properties the
    longest prefix that fits the spare bytes; and the reason string exactly if it fits after all of
    them.
   */
  lemma WhatIsKept(p: Packet, limit: u32, k: nat)
    requires IsLimited(p) && k <= |LayoutOf(p).users|
    ensures var l, kept := LayoutOf(p), Truncated(p, limit);
            && IsLimited(kept) && Stripped(kept) == Stripped(p)
            && LayoutOf(kept).users <= l.users
            && (UsersSize(l.users[..k]) <= Spare(p, limit) <==> k <= |LayoutOf(kept).users|)
            && LayoutOf(kept).reason ==
                 if l.reason.Some? && UsersSize(l.users) + 1 + 2 + |l.reason.value| <= Spare(p, limit) then l.reason
                 else None
  {
    hide Room, Spare, ConnAckSlots, DisconnectSlots, AuthSlots, UserSize, UsersSize;
    RoomIsSpare(p, limit);
    KeptCountIsLongest(LayoutOf(p).users, Spare(p, limit), k);
  }

  /** A packet goes out whole exactly if all its optional properties fit the spare bytes. */
  lemma TruncatedKeepsAll(p: Packet, limit: u32)
    requires IsLimited(p)
    ensures var l := LayoutOf(p);
            var all := UsersSize(l.users) + if l.reason.Some? then 1 + 2 + |l.reason.value| else 0;
            all <= Spare(p, limit) <==> Truncated(p, limit) == p
  {
    hide Room, Spare, ConnAckSlots, DisconnectSlots, AuthSlots, UserSize;
    var l := LayoutOf(p);
    var room := Spare(p, limit);
    RoomIsSpare(p, limit);
    KeptCountIsLongest(l.users, room, |l.users|);
    assert l.users[..|l.users|] == l.users;
    assert KeptUsers(l.users, room) == l.users <==> KeptCount(l.users, room) == |l.users|;
  }

  lemma RoomBound(p: Packet, limit: u32)
    requires IsLimited(p) && Mandatory(p) <= limit
    ensures Mandatory(p) + Room(p, limit) <= limit
  {
  }

  /** Under a limit that leaves room for the mandatory part, no packet of these types comes out too large. */
  lemma NeverTooLarge(p: Packet, limit: u32)
    requires IsLimited(p) && limit <= VarInt.MAX_VARINT && Mandatory(p) <= limit
    ensures LimitedSize(p, limit) <= limit
  {
    hide LayoutOf, OptSize, SlotsSize, Room;
    var l := LayoutOf(p);
    RoomBound(p, limit);
    StatusShort(p, limit);
    OptSizeBound(l.users, l.reason, Room(p, limit));
  }

  /** The bytes of a packet without optional properties. */
  function Bare(p: Packet): nat
    requires IsLimited(p)
  {
    var l := LayoutOf(p);
    |l.head| + VarInt.Len(SlotsSize(l.slots)) + SlotsSize(l.slots) + |l.tail|
  }

  /** The size pass keeps neither a user property nor the reason string. */
  predicate KeepsNothing(p: Packet, limit: u32)
    requires IsLimited(p)
  {
    var l := LayoutOf(p);
    KeptUsers(l.users, Room(p, limit)) == [] && KeptReason(l.users, l.reason, Room(p, limit)).None?
  }

  /**
    A packet comes out within its limit if and only if its bare form does and, under a limit
    that does not hold the mandatory part, the size pass keeps no optional property.
   */
  lemma WithinLimitedIff(p: Packet, limit: u32)
    requires IsLimited(p) && limit <= VarInt.MAX_VARINT
    ensures LimitedSize(p, limit) <= limit <==>
            Bare(p) <= limit && (limit < Mandatory(p) ==> KeepsNothing(p, limit))
  {
    hide LayoutOf, OptSize, SlotsSize, Room, VarInt.Len, KeptUsers, KeptReason;
    var l := LayoutOf(p);
    var opt := OptSize(l.users, l.reason, Room(p, limit));
    OptSizeZero(l.users, l.reason, Room(p, limit));
    ManyCodes(p);
    if limit >= Mandatory(p) {
      NeverTooLarge(p, limit);
      assert VarInt.Len(SlotsSize(l.slots)) <= 4 by { VarInt.LenWithin(SlotsSize(l.slots)); }
    }
  }

  /** A SUBACK with more codes than the size pass can count is too large in any form. */
  lemma ManyCodes(p: Packet)
    requires IsLimited(p)
    ensures p.SubscribeAck? && |p.subAck.status| > U32 - 3 ==> Bare(p) >= U32
  {
    hide ConnAckSlots, DisconnectSlots, AuthSlots, VarInt.Len;
  }

  /** Only for PUBACK, PUBREC, PUBREL and PUBCOMP, whose room wraps around below a limit of seven, does that matter. */
  lemma OthersCutAll(p: Packet, limit: u32)
    requires IsLimited(p) && !IsPubAck(p) && Bare(p) <= limit < Mandatory(p)
    ensures Room(p, limit) == 0 && KeepsNothing(p, limit)
  {
    hide ConnAckSlots, DisconnectSlots, AuthSlots, VarInt.Len;
    assert Room(p, limit) == 0;
  }

  lemma StatusShort(p: Packet, limit: u32)
    requires IsLimited(p) && Mandatory(p) <= limit
    ensures p.SubscribeAck? ==> |p.subAck.status| <= U32 - 3
  {
  }
}
