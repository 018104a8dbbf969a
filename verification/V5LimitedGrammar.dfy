/** The language of the MQTT 5.0 decoder for the packets that are cut to a size limit. */
module V5LimitedGrammar {
  import opened Wrappers
  import opened Words
  import opened Bytes
  import opened PacketTypes
  import opened Props
  import opened PropGrammar
  import opened PropBlocks
  import opened V5Packets
  import opened V5Limited
  import opened V5LimitedRoundTrip

  // ----- The forms of a packet

  /** A value that stands for its absence. */
  predicate IsDefault(id: byte, v: Val) {
    || (id == TOPIC_ALIAS_MAX && v == VU16(0))
    || (id == REQ_PROB_INFO && v == VBool(true))
    || (id == REQ_RESP_INFO && v == VBool(false))
  }

  /** The properties say what a field says. */
  ghost predicate SlotFound(slot: Slot, ps: seq<Prop>) {
    var found := Find(ps, slot.id);
    found == slot.val || (slot.val.None? && found.Some? && IsDefault(slot.id, found.value))
  }

  ghost predicate AllFound(slots: seq<Slot>, ps: seq<Prop>) {
    forall i :: 0 <= i < |slots| ==> SlotFound(slots[i], ps)
  }

  ghost predicate FieldsFound(l: Layout, ps: seq<Prop>) {
    && AllFound(l.slots, ps)
    && l.users == UsersOf(ps) && l.reason == ToStr(Find(ps, REASON_STRING))
  }

  /** The head, a block of the packet's properties in any order, and the tail. */
  ghost predicate LongForm(p: Packet, src: seq<byte>, ps: seq<Prop>)
    requires IsLimited(p)
  {
    var l := LayoutOf(p);
    && CodesOk(p) && l.head <= src
    && BlockForm(TableOf(p), src[|l.head|..], ps, l.tail) && FieldsFound(l, ps)
  }

  /** A packet of reason code zero without properties may leave both out. */
  predicate ShortForm(p: Packet, src: seq<byte>)
    requires IsLimited(p)
  {
    if IsPubAck(p) then src == PutU16(p.pubAck.id) && p.pubAck == PubAck(p.pubAck.id, 0, [], None)
    else if p.Disconnect? then src == [] && p.disconnection == Disconnection(0, None, None, None, [])
    else if p.Auth? then src == [] && p.authentication == Authentication(0, None, None, None, [])
    else false
  }

  ghost predicate LimitedForm(p: Packet, src: seq<byte>)
    requires IsLimited(p)
  {
    ShortForm(p, src) || exists ps :: LongForm(p, src, ps)
  }

  // ----- Fields and properties

  /** A property of an accepted block becomes a field and the field the property. */
  lemma FoundConverts(table: Table, ps: seq<Prop>, id: byte)
    requires Allowed(table, [], ps) && id in table
    ensures table[id].KBool? ==> FromBool(ToBool(Find(ps, id))) == Find(ps, id)
    ensures table[id].KQos? ==> FromQos(ToQos(Find(ps, id))) == Find(ps, id)
    ensures table[id].KU16? ==> From16(To16(Find(ps, id))) == Find(ps, id)
    ensures table[id].KNz16? ==> FromNz16(ToNz16(Find(ps, id))) == Find(ps, id)
    ensures table[id].KU32? ==> From32(To32(Find(ps, id))) == Find(ps, id)
    ensures table[id].KNz32? ==> FromNz32(ToNz32(Find(ps, id))) == Find(ps, id)
    ensures table[id].KStr? ==> FromStr(ToStr(Find(ps, id))) == Find(ps, id)
    ensures table[id].KBin? ==> FromBin(ToBin(Find(ps, id))) == Find(ps, id)
  {
    hide Allowed, Find;
    FoundTyped(table, ps, id);
  }

  lemma AliasSlot(ps: seq<Prop>)
    requires From16(To16(Find(ps, TOPIC_ALIAS_MAX))) == Find(ps, TOPIC_ALIAS_MAX)
    ensures SlotFound(Slot(TOPIC_ALIAS_MAX, From16(NonZero(OrZero(To16(Find(ps, TOPIC_ALIAS_MAX)))))), ps)
  {
    hide Find;
  }

  lemma ConnAckFirst(present: bool, code: byte, ps: seq<Prop>)
    requires Allowed(CONNACK_TABLE, [], ps)
    ensures var a := BuildConnAck(present, code, ps);
            && From32(a.sessionExpiry) == Find(ps, SESS_EXPIRY_INT) && FromNz16(a.receiveMax) == Find(ps, RECEIVE_MAX)
            && FromQos(a.maxQos) == Find(ps, MAX_QOS) && FromBool(a.retainAvailable) == Find(ps, RETAIN_AVAIL)
            && From32(a.maxPacketSize) == Find(ps, MAX_PACKET_SIZE)
            && FromStr(a.assignedClientId) == Find(ps, ASSND_CLIENT_ID)
            && SlotFound(Slot(TOPIC_ALIAS_MAX, From16(NonZero(a.topicAliasMax))), ps)
  {
    hide Allowed, Find, UsersOf, SlotFound, IsDefault, From32, FromNz16, FromQos, FromBool, FromStr, FromBin, From16;
    hide To32, ToNz16, ToQos, ToBool, ToStr, ToBin, To16, NonZero, OrZero;
    FoundConverts(CONNACK_TABLE, ps, SESS_EXPIRY_INT);
    FoundConverts(CONNACK_TABLE, ps, RECEIVE_MAX);
    FoundConverts(CONNACK_TABLE, ps, MAX_QOS);
    FoundConverts(CONNACK_TABLE, ps, RETAIN_AVAIL);
    FoundConverts(CONNACK_TABLE, ps, MAX_PACKET_SIZE);
    FoundConverts(CONNACK_TABLE, ps, ASSND_CLIENT_ID);
    FoundConverts(CONNACK_TABLE, ps, TOPIC_ALIAS_MAX);
    AliasSlot(ps);
  }

  lemma ConnAckRest(present: bool, code: byte, ps: seq<Prop>)
    requires Allowed(CONNACK_TABLE, [], ps)
    ensures var a := BuildConnAck(present, code, ps);
            && FromBool(a.wildcardSubs) == Find(ps, WILDCARD_SUB_AVAIL)
            && FromBool(a.subscriptionIds) == Find(ps, SUB_IDS_AVAIL)
            && FromBool(a.sharedSubs) == Find(ps, SHARED_SUB_AVAIL)
            && From16(a.serverKeepAlive) == Find(ps, SERVER_KA) && FromStr(a.responseInfo) == Find(ps, RESP_INFO)
            && FromStr(a.serverReference) == Find(ps, SERVER_REF) && FromStr(a.authMethod) == Find(ps, AUTH_METHOD)
            && FromBin(a.authData) == Find(ps, AUTH_DATA)
  {
    hide Allowed, Find, UsersOf, From32, FromNz16, FromQos, FromBool, FromStr, FromBin, From16;
    hide To32, ToNz16, ToQos, ToBool, ToStr, ToBin, To16, OrZero;
    FoundConverts(CONNACK_TABLE, ps, WILDCARD_SUB_AVAIL);
    FoundConverts(CONNACK_TABLE, ps, SUB_IDS_AVAIL);
    FoundConverts(CONNACK_TABLE, ps, SHARED_SUB_AVAIL);
    FoundConverts(CONNACK_TABLE, ps, SERVER_KA);
    FoundConverts(CONNACK_TABLE, ps, RESP_INFO);
    FoundConverts(CONNACK_TABLE, ps, SERVER_REF);
    FoundConverts(CONNACK_TABLE, ps, AUTH_METHOD);
    FoundConverts(CONNACK_TABLE, ps, AUTH_DATA);
  }

  lemma ConnAckFound(present: bool, code: byte, ps: seq<Prop>)
    requires Allowed(CONNACK_TABLE, [], ps)
    ensures AllFound(ConnAckSlots(BuildConnAck(present, code, ps)), ps)
  {
    hide Allowed, Find, UsersOf, IsDefault, From32, FromNz16, FromQos, FromBool, FromStr, FromBin, From16;
    hide BuildConnAck, NonZero;
    ConnAckFirst(present, code, ps);
    ConnAckRest(present, code, ps);
  }

  /** The other way: a packet whose fields are all found is the one that is built. */
  lemma ConnAckBack(a: ConnAck, ps: seq<Prop>)
    requires AllFound(ConnAckSlots(a), ps)
    ensures BuildConnAck(a.sessionPresent, a.code, ps)
         == a.(users := UsersOf(ps), reason := ToStr(Find(ps, REASON_STRING)))
  {
    hide Find, UsersOf, Utf8;
    var s := ConnAckSlots(a);
    assert SlotFound(s[0], ps) && SlotFound(s[1], ps) && SlotFound(s[2], ps) && SlotFound(s[3], ps);
    assert SlotFound(s[4], ps) && SlotFound(s[5], ps) && SlotFound(s[6], ps) && SlotFound(s[7], ps);
    assert SlotFound(s[8], ps) && SlotFound(s[9], ps) && SlotFound(s[10], ps) && SlotFound(s[11], ps);
    assert SlotFound(s[12], ps) && SlotFound(s[13], ps) && SlotFound(s[14], ps);
  }

  lemma SmallFound(code: byte, ps: seq<Prop>)
    ensures Allowed(DISCONNECT_TABLE, [], ps) ==> AllFound(DisconnectSlots(BuildDisconnect(code, ps)), ps)
    ensures Allowed(AUTH_TABLE, [], ps) ==> AllFound(AuthSlots(BuildAuth(code, ps)), ps)
  {
    hide Allowed, Find, UsersOf, From32, FromStr, FromBin, To32, ToStr, ToBin;
    if Allowed(DISCONNECT_TABLE, [], ps) {
      FoundConverts(DISCONNECT_TABLE, ps, SESS_EXPIRY_INT);
      FoundConverts(DISCONNECT_TABLE, ps, SERVER_REF);
    }
    if Allowed(AUTH_TABLE, [], ps) {
      FoundConverts(AUTH_TABLE, ps, AUTH_METHOD);
      FoundConverts(AUTH_TABLE, ps, AUTH_DATA);
    }
  }

  lemma SmallBack(d: Disconnection, a: Authentication, ps: seq<Prop>)
    ensures AllFound(DisconnectSlots(d), ps) ==>
              BuildDisconnect(d.code, ps) == d.(users := UsersOf(ps), reason := ToStr(Find(ps, REASON_STRING)))
    ensures AllFound(AuthSlots(a), ps) ==>
              BuildAuth(a.code, ps) == a.(users := UsersOf(ps), reason := ToStr(Find(ps, REASON_STRING)))
  {
    hide Find, UsersOf, Utf8;
    var s, t := DisconnectSlots(d), AuthSlots(a);
    if AllFound(s, ps) { assert SlotFound(s[0], ps) && SlotFound(s[1], ps); }
    if AllFound(t, ps) { assert SlotFound(t[0], ps) && SlotFound(t[1], ps); }
  }

  // ----- Packets

  lemma LastBlockLanguage(table: Table, src: seq<byte>, ps: seq<Prop>)
    ensures GetLastBlock(table, src) == Ok(ps) <==> BlockForm(table, src, ps, [])
  {
    hide GetBlock, BlockForm;
    BlockLanguage(table, src, ps, []);
  }

  lemma BlockAllows(table: Table, src: seq<byte>, ps: seq<Prop>, rest: seq<byte>)
    requires BlockForm(table, src, ps, rest)
    ensures Allowed(table, [], ps)
  {
  }

  lemma ConnAckLanguage(p: Packet, src: seq<byte>)
    requires p.ConnectAck?
    ensures GetLimited(p, src) == Ok(p) <==> LimitedForm(p, src)
  {
    hide GetLastBlock, BlockForm, ConnAckSlots, BuildConnAck, AllFound, Find, UsersOf;
    var a := p.connAck;
    if GetLimited(p, src) == Ok(p) {
      var ps := GetLastBlock(CONNACK_TABLE, src[2..]).value;
      LastBlockLanguage(CONNACK_TABLE, src[2..], ps);
      BlockAllows(CONNACK_TABLE, src[2..], ps, []);
      ConnAckFound(src[0] == 1, src[1], ps);
      ConnAckRestFields(src[0] == 1, src[1], ps);
      assert src[..2] == [src[0], src[1]];
      assert LongForm(p, src, ps);
    }
    if LimitedForm(p, src) {
      var ps :| LongForm(p, src, ps);
      LastBlockLanguage(CONNACK_TABLE, src[2..], ps);
      ConnAckBack(a, ps);
      var head := LayoutOf(p).head;
      assert src[0] == head[0] && src[1] == head[1];
    }
  }

  lemma ConnAckRestFields(present: bool, code: byte, ps: seq<Prop>)
    ensures var a := BuildConnAck(present, code, ps);
            && a.sessionPresent == present && a.code == code
            && a.users == UsersOf(ps) && a.reason == ToStr(Find(ps, REASON_STRING))
  {
  }

  /** The long form of PUBACK, PUBREC, PUBREL and PUBCOMP. */
  ghost predicate AckLong(release: bool, a: PubAck, src: seq<byte>, ps: seq<Prop>) {
    && (if release then PubRelCode(a.code) else PubAckCode(a.code))
    && PutU16(a.id) + [a.code] <= src && BlockForm(ACK_TABLE, src[3..], ps, [])
    && a.users == UsersOf(ps) && a.reason == ToStr(Find(ps, REASON_STRING))
  }

  lemma AckInverse(release: bool, src: seq<byte>)
    requires GetPubAck(release, src).Ok?
    ensures var a := GetPubAck(release, src).value;
            if |src| == 2 then src == PutU16(a.id) && a == PubAck(a.id, 0, [], None)
            else exists ps :: AckLong(release, a, src, ps)
  {
    hide GetLastBlock, BlockForm, Find, UsersOf, GetU16, PutU16, PubAckCode, PubRelCode;
    U16Inverse(src);
    var a := GetPubAck(release, src).value;
    var rest := GetNz16(src).value.rest;
    if rest == [] {
      assert PutU16(a.id) + [] == PutU16(a.id);
    } else {
      var ps := GetLastBlock(ACK_TABLE, rest[1..]).value;
      LastBlockLanguage(ACK_TABLE, rest[1..], ps);
      assert src == PutU16(a.id) + [a.code] + rest[1..];
      assert src[3..] == rest[1..];
      assert AckLong(release, a, src, ps);
    }
  }

  lemma AckAccepts(release: bool, a: PubAck, src: seq<byte>, ps: seq<Prop>)
    ensures src == PutU16(a.id) ==> GetPubAck(release, src) == Ok(PubAck(a.id, 0, [], None))
    ensures AckLong(release, a, src, ps) ==> GetPubAck(release, src) == Ok(a)
  {
    hide GetLastBlock, BlockForm, Find, UsersOf, GetU16, PutU16, PubAckCode, PubRelCode;
    if src == PutU16(a.id) {
      U16RoundTrip(a.id, []);
      assert PutU16(a.id) + [] == PutU16(a.id);
    }
    if AckLong(release, a, src, ps) {
      assert src == PutU16(a.id) + ([a.code] + src[3..]);
      U16RoundTrip(a.id, [a.code] + src[3..]);
      assert ([a.code] + src[3..])[1..] == src[3..];
      LastBlockLanguage(ACK_TABLE, src[3..], ps);
    }
  }

  lemma PubAckLanguage(p: Packet, src: seq<byte>)
    requires IsPubAck(p)
    ensures GetLimited(p, src) == Ok(p) <==> LimitedForm(p, src)
  {
    hide GetPubAck, BlockForm, Find, UsersOf, PutU16, PubAckCode, PubRelCode;
    var a, release := p.pubAck, p.PublishRelease? || p.PublishComplete?;
    assert forall ps :: AckLong(release, a, src, ps) <==> LongForm(p, src, ps);
    if GetLimited(p, src) == Ok(p) {
      AckInverse(release, src);
      if |src| != 2 {
        var ps :| AckLong(release, a, src, ps);
        assert LongForm(p, src, ps);
      }
    }
    if ShortForm(p, src) {
      AckAccepts(release, a, src, []);
    } else if LimitedForm(p, src) {
      var ps :| LongForm(p, src, ps);
      AckAccepts(release, a, src, ps);
    }
  }

  lemma SubAckLanguage(p: Packet, src: seq<byte>)
    requires p.SubscribeAck? || p.UnsubscribeAck?
    ensures GetLimited(p, src) == Ok(p) <==> LimitedForm(p, src)
  {
    hide GetBlock, BlockForm, Find, UsersOf, GetU16, PutU16, StatusOk;
    var a := p.subAck;
    if GetLimited(p, src) == Ok(p) {
      U16Inverse(src);
      var rest := GetNz16(src).value.rest;
      var Read(ps, status) := GetBlock(ACK_TABLE, rest).value;
      BlockLanguage(ACK_TABLE, rest, ps, status);
      assert src[2..] == rest;
      assert LongForm(p, src, ps);
    }
    if LimitedForm(p, src) {
      var ps :| LongForm(p, src, ps);
      assert src == PutU16(a.id) + src[2..];
      U16RoundTrip(a.id, src[2..]);
      BlockLanguage(ACK_TABLE, src[2..], ps, a.status);
    }
  }

  lemma DisconnectLanguage(p: Packet, src: seq<byte>)
    requires p.Disconnect?
    ensures GetLimited(p, src) == Ok(p) <==> LimitedForm(p, src)
  {
    hide GetLastBlock, BlockForm, DisconnectSlots, AllFound, Find, UsersOf, DisconnectCode;
    var d := p.disconnection;
    if GetLimited(p, src) == Ok(p) && src != [] {
      var ps := GetLastBlock(DISCONNECT_TABLE, src[1..]).value;
      LastBlockLanguage(DISCONNECT_TABLE, src[1..], ps);
      BlockAllows(DISCONNECT_TABLE, src[1..], ps, []);
      SmallFound(src[0], ps);
      assert src[..1] == [src[0]];
      assert LongForm(p, src, ps);
    }
    if LimitedForm(p, src) && !ShortForm(p, src) {
      var ps :| LongForm(p, src, ps);
      LastBlockLanguage(DISCONNECT_TABLE, src[1..], ps);
      SmallBack(d, Authentication(0, None, None, None, []), ps);
      assert src[0] == LayoutOf(p).head[0];
    }
  }

  lemma AuthLanguage(p: Packet, src: seq<byte>)
    requires p.Auth?
    ensures GetLimited(p, src) == Ok(p) <==> LimitedForm(p, src)
  {
    hide GetLastBlock, AuthSlots, AllFound, Find, UsersOf, AuthCode, Allowed, PropsForm;
    var a := p.authentication;
    if GetLimited(p, src) == Ok(p) && src != [] {
      var ps := GetLastBlock(AUTH_TABLE, src[1..]).value;
      LastBlockLanguage(AUTH_TABLE, src[1..], ps);
      BlockAllows(AUTH_TABLE, src[1..], ps, []);
      SmallFound(src[0], ps);
      assert src[..1] == [src[0]];
      assert LongForm(p, src, ps);
    }
    if LimitedForm(p, src) && !ShortForm(p, src) {
      var ps :| LongForm(p, src, ps);
      LastBlockLanguage(AUTH_TABLE, src[1..], ps);
      SmallBack(Disconnection(0, None, None, None, []), a, ps);
      assert src[0] == LayoutOf(p).head[0];
    }
  }

  /** Exactly the forms of a packet are read as that packet. */
  lemma LimitedLanguage(p: Packet, src: seq<byte>)
    requires IsLimited(p)
    ensures GetLimited(p, src) == Ok(p) <==> LimitedForm(p, src)
  {
    hide GetLimited, LimitedForm;
    if p.ConnectAck? { ConnAckLanguage(p, src); }
    else if p.SubscribeAck? || p.UnsubscribeAck? { SubAckLanguage(p, src); }
    else if p.Disconnect? { DisconnectLanguage(p, src); }
    else if p.Auth? { AuthLanguage(p, src); }
    else { PubAckLanguage(p, src); }
  }
}
