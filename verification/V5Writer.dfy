/**
  The two passes of the MQTT 5.0 encoder as the source runs them: loops that count, and loops that
  append to a buffer and stop at the first field that is too long (src/v5/codec/encode.rs:15-171 and
  248-263, and the encoders in src/v5/codec/packet/).
 */
module V5Writer {
  import opened Wrappers
  import opened Words
  import opened Bytes
  import opened Props
  import opened LimitedProps
  import opened PropBlocks
  import opened V5Packets
  import opened V5Limited
  import opened V5LimitedRoundTrip
  import opened V5Plain
  import opened V5PlainRoundTrip
  import opened V5Codec
  import ListLoops
  import VarInt

  type Output = Result<seq<byte>, EncodeError>

  // ----- Loops over lists

  method CountUsers(users: seq<UserProp>) returns (len: nat)
    ensures len == UsersSize(users)
  {
    len := 0;
    for i := 0 to |users|
      invariant len + UsersSize(users[i..]) == UsersSize(users)
    {
      assert users[i..][1..] == users[i + 1..];
      len := len + UserSize(users[i]);
    }
  }

  /** One property after the other; each is its type byte and its value. */
  method WriteProps(ps: seq<Prop>, buf: seq<byte>) returns (r: Output)
    requires forall i :: 0 <= i < |ps| ==> !ps[i].val.VVar?
    ensures r == if Writable(ps) then Ok(buf + PutProps(ps)) else Err(EncInvalidLength)
  {
    hide PutVal, ValFits, ValSize;
    var out := buf;
    for i := 0 to |ps|
      invariant Writable(ps[..i]) && out == buf + PutProps(ps[..i])
    {
      if !ValFits(ps[i].val) {
        return Err(EncInvalidLength);
      }
      assert ps[..i + 1] == ps[..i] + [ps[i]];
      PutPropsLast(ps[..i], ps[i]);
      out := out + ([ps[i].id] + PutVal(ps[i].val));
    }
    assert ps[..|ps|] == ps;
    return Ok(out);
  }

  lemma PutPropsLast(ps: seq<Prop>, p: Prop)
    requires Writable(ps) && ValFits(p.val) && !p.val.VVar?
    ensures Writable(ps + [p]) && PutProps(ps + [p]) == PutProps(ps) + ([p.id] + PutVal(p.val))
  {
    hide PutVal, ValFits, ValSize;
    PutPropsConcat(ps, [p]);
    assert [p][1..] == [];
    assert PutProps([p]) == [p.id] + PutVal(p.val) + [];
  }

  method WriteUsers(users: seq<UserProp>, buf: seq<byte>) returns (r: Output)
    ensures UsersFit(users) ==> Writable(UserProps(users)) && r == Ok(buf + PutProps(UserProps(users)))
    ensures !UsersFit(users) ==> r == Err(EncInvalidLength)
  {
    hide PutUser, UserProps, PutProps, Writable;
    var out := buf;
    assert Writable(UserProps([])) && PutProps(UserProps([])) == [] by { NoUsersToPut(); }
    for i := 0 to |users|
      invariant UsersFit(users[..i]) && Writable(UserProps(users[..i]))
      invariant out == buf + PutProps(UserProps(users[..i]))
    {
      if !Fits(users[i].key) || !Fits(users[i].value) {
        return Err(EncInvalidLength);
      }
      assert users[..i + 1] == users[..i] + [users[i]];
      UserPropsLast(users[..i], users[i]);
      out := out + PutUser(users[i]);
    }
    assert users[..|users|] == users;
    return Ok(out);
  }

  lemma {:induction false} UserPropsConcat(a: seq<UserProp>, b: seq<UserProp>)
    ensures UserProps(a + b) == UserProps(a) + UserProps(b)
  {
    if a == [] {
      assert a + b == b;
    } else {
      UserPropsConcat(a[1..], b);
      assert (a + b)[1..] == a[1..] + b && (a + b)[0] == a[0];
      var h, x, y := [Prop(USER, VPair(a[0].key, a[0].value))], UserProps(a[1..]), UserProps(b);
      assert UserProps(a + b) == h + (x + y);
      assert h + (x + y) == h + x + y;
    }
  }

  lemma UserPropsLast(users: seq<UserProp>, u: UserProp)
    requires UsersFit(users) && Writable(UserProps(users)) && Fits(u.key) && Fits(u.value)
    ensures Writable(UserProps(users + [u]))
    ensures PutProps(UserProps(users + [u])) == PutProps(UserProps(users)) + PutUser(u)
  {
    hide PutUser, PutProps, PutVal;
    UserPropsConcat(users, [u]);
    var p := Prop(USER, VPair(u.key, u.value));
    assert UserProps([u]) == [p] by { assert [u][1..] == []; }
    PutPropsUser(u, []);
    assert [p] + [] == [p] && PutProps([]) == [] by { NothingToPut(); }
    assert PutUser(u) + [] == PutUser(u);
    PutPropsConcat(UserProps(users), [p]);
  }

  lemma NoUsersToPut()
    ensures UserProps([]) == [] && Writable(UserProps([])) && PutProps(UserProps([])) == []
  {
  }

  lemma NothingToPut()
    ensures PutProps([]) == []
  {
  }

  method WriteIds(ids: seq<nz32>, buf: seq<byte>) returns (out: seq<byte>)
    ensures out == buf + PutIds(ids)
  {
    hide PutU32;
    out := buf;
    for i := 0 to |ids|
      invariant out + PutIds(ids[i..]) == buf + PutIds(ids)
    {
      assert ids[i..][1..] == ids[i + 1..];
      var x, y := [SUB_ID] + PutU32(ids[i]), PutIds(ids[i + 1..]);
      assert PutIds(ids[i..]) == x + y;
      assert out + (x + y) == out + x + y;
      out := out + x;
    }
  }

  method WriteTopics(ts: seq<Str>, buf: seq<byte>) returns (r: Output)
    ensures r == if TopicsFit(ts) then Ok(buf + PutTopics(ts)) else Err(EncInvalidLength)
  {
    hide PutBytes;
    var out := buf;
    for i := 0 to |ts|
      invariant TopicsFit(ts[..i])
      invariant TopicsFit(ts) ==> out + PutTopics(ts[i..]) == buf + PutTopics(ts)
    {
      if !Fits(ts[i]) {
        return Err(EncInvalidLength);
      }
      assert ts[i..][1..] == ts[i + 1..];
      ghost var x := PutBytes(ts[i]);
      if TopicsFit(ts) {
        assert PutTopics(ts[i..]) == x + PutTopics(ts[i + 1..]);
        assert out + (x + PutTopics(ts[i + 1..])) == out + x + PutTopics(ts[i + 1..]);
      }
      out := out + PutBytes(ts[i]);
    }
    assert ts[..|ts|] == ts && ts[|ts|..] == [] && out + [] == out;
    return Ok(out);
  }

  // ----- The size pass

  method SizePass(p: Packet, limit: u32) returns (size: nat)
    ensures size == ContentSize(p, limit)
  {
    hide ConnectSize, PublishSize, SlotsSize, OptSize, VarInt.Len;
    if IsLimited(p) {
      if p.SubscribeAck? && |p.subAck.status| > U32 - 3 {
        return USIZE - 1;
      }
      var l := LayoutOf(p);
      var opt := EncodedSizeOptProps(l.users, l.reason, Room(p, limit));
      var n := SlotsSize(l.slots) + opt;
      return |l.head| + (VarInt.Len(n) + n) + |l.tail|;
    }
    if p.Connect? {
      size := CountConnect(p.connection);
    } else if p.Publish? {
      size := CountPublish(p.publication);
    } else if p.Subscribe? {
      var s := p.subscription;
      var users := CountUsers(s.users);
      var n := users + if s.subscriptionId.Some? then VarInt.Len(s.subscriptionId.value) else 0;
      size := 2 + VarInt.Len(n) + n + FiltersSize(s.filters);
    } else if p.Unsubscribe? {
      var n := CountUsers(p.unsubscription.users);
      size := 2 + VarInt.Len(n) + n + TopicsSize(p.unsubscription.topics);
    } else {
      size := 0;
    }
  }

  method CountPublish(m: Publication) returns (size: nat)
    ensures size == PublishSize(m)
  {
    hide SlotsSize, UsersSize, IdsSize, VarInt.Len, PublishSlots;
    var users := CountUsers(m.users);
    var n := SlotsSize(PublishSlots(m)) + IdsSize(Ids(m)) + users;
    size := 2 + |m.topic| + (if m.qos == 0 then 0 else 2) + (n + VarInt.Len(n)) + |m.payload|;
  }

  method CountConnect(c: Connection) returns (size: nat)
    ensures size == ConnectSize(c)
  {
    hide SlotsSize, UsersSize, VarInt.Len, ConnectSlots, WillSlots;
    var users := CountUsers(c.users);
    var n := SlotsSize(ConnectSlots(c)) + users;
    size := 10 + VarInt.Len(n) + n + (2 + |c.clientId|) + OptLen(c.username) + OptLen(c.password);
    if c.will.Some? {
      var w := c.will.value;
      var willUsers := CountUsers(w.users);
      var k := SlotsSize(WillSlots(w)) + willUsers;
      size := size + VarInt.Len(k) + k + (2 + |w.topic|) + (2 + |w.message|);
    }
  }

  // ----- The write pass

  /** What the write pass leaves behind the bytes that are already in the buffer. */
  function Behind(buf: seq<byte>, p: Packet, limit: u32): Output
    requires ContentSize(p, limit) <= VarInt.MAX_VARINT
  {
    match BodyError(p, ContentSize(p, limit))
    case Some(e) => Err(e)
    case None => Ok(buf + PutBody(p, limit))
  }

  /** The size-limited packets: head, length of the block, properties, what fits of the optional ones, tail. */
  method WriteLimited(p: Packet, limit: u32, size: nat, buf: seq<byte>) returns (r: Output)
    requires IsLimited(p) && size == LimitedSize(p, limit) <= VarInt.MAX_VARINT
    ensures r == Behind(buf, p, limit)
  {
    hide LayoutOf, Room, SlotsOk, SlotProps, SlotsSize, OptSize, ReachedFit, PutOptProps, PutProps, LimitedSize;
    hide Writable, BlockSize, BlockLen, VarInt.Put, VarInt.Len, VarInt.FromSize, Weight;
    var l := LayoutOf(p);
    LayoutOk(p);
    LayoutBlock(p, limit);
    var block := size - |l.head| - |l.tail|;
    BlockAnnounces(l.slots, l.users, l.reason, Room(p, limit));
    var n := VarInt.FromSize(block);
    SlotsNotVar(TableOf(p), l.slots);
    var head := WriteProps(SlotProps(l.slots), VarInt.Put(n));
    if head.Err? {
      return Err(head.error);
    }
    WritableSlotsFit(l.slots);
    SlotPropsWritable(TableOf(p), l.slots);
    LeftIsOptSize(l.slots, l.users, l.reason, Room(p, limit));
    assert head.value == BlockHead(l.slots, block);
    var left := if |head.value| <= block then block - |head.value| else 0;
    var opt := EncodeOptProps(l.users, l.reason, left);
    if opt.Err? {
      return Err(opt.error);
    }
    assert PutLimited(l, size) == l.head + (head.value + opt.value) + l.tail;
    return Ok(buf + (l.head + (head.value + opt.value) + l.tail));
  }

  lemma BlockAnnounces(slots: seq<Slot>, users: seq<UserProp>, reason: Option<Str>, limit: nat)
    requires BlockLen(slots, users, reason, limit) <= VarInt.MAX_VARINT
    ensures Announces(BlockSize(slots, users, reason, limit))
  {
    hide SlotsSize, OptSize;
    VarInt.FromSizeInverts(BlockLen(slots, users, reason, limit));
  }

  method WriteSubscribe(s: Subscription, buf: seq<byte>) returns (r: Output)
    requires SubscribeSize(s) <= VarInt.MAX_VARINT
    ensures r == Behind(buf, Subscribe(s), 0)
  {
    hide VarInt.Put, VarInt.Len, PutU16, PutU32, PutFilters, UsersSize, FiltersSize;
    var users := CountUsers(s.users);
    var n := users + if s.subscriptionId.Some? then VarInt.Len(s.subscriptionId.value) else 0;
    var id := if s.subscriptionId.Some? then [SUB_ID] + PutU32(s.subscriptionId.value) else [];
    var filters := ListLoops.WriteFiltersV5(s.filters, id);
    if filters.Err? {
      return Err(filters.error);
    }
    assert PutSubscribe(s) == PutU16(s.id) + (VarInt.Put(n) + filters.value);
    return Ok(buf + (PutU16(s.id) + (VarInt.Put(n) + filters.value)));
  }

  method WriteUnsubscribe(u: Unsubscription, buf: seq<byte>) returns (r: Output)
    requires UnsubscribeSize(u) <= VarInt.MAX_VARINT
    ensures r == Behind(buf, Unsubscribe(u), 0)
  {
    hide VarInt.Put, VarInt.Len, PutU16, PutTopics, UsersSize, TopicsSize;
    var n := CountUsers(u.users);
    var topics := WriteTopics(u.topics, []);
    if topics.Err? {
      return Err(topics.error);
    }
    assert [] + PutTopics(u.topics) == PutTopics(u.topics);
    return Ok(buf + (PutU16(u.id) + (VarInt.Put(n) + topics.value)));
  }

  /** The properties of a message: the single ones, the subscription identifiers, the user properties. */
  method WritePublishProps(m: Publication) returns (r: Output)
    requires Fits(m.topic)
    ensures PublishFits(m) ==> r == Ok((PublishWritable(m); PutPublishProps(m)))
    ensures !PublishFits(m) ==> r == Err(EncInvalidLength)
  {
    hide SlotProps, UserProps, PutProps, Writable, SlotsOk, PublishSlots, UsersFit, PublishFits, PutIds, SlotsFit;
    PublishSlotsOk(m);
    SlotsNotVar(PUBLISH_TABLE, PublishSlots(m));
    PublishFitsParts(m);
    var slots := WriteProps(SlotProps(PublishSlots(m)), []);
    if slots.Err? {
      if PublishFits(m) { PublishWritable(m); }
      return Err(slots.error);
    }
    WritableSlotsFit(PublishSlots(m));
    var ids := WriteIds(Ids(m), slots.value);
    var users := WriteUsers(m.users, ids);
    if users.Err? {
      return Err(users.error);
    }
    PublishWritable(m);
    ghost var a, b, c := PutProps(SlotProps(PublishSlots(m))), PutIds(Ids(m)), PutProps(UserProps(m.users));
    assert [] + a == a && a + b + c == a + (b + c);
    return Ok(users.value);
  }

  lemma PublishFitsParts(m: Publication)
    requires Fits(m.topic)
    ensures PublishFits(m) <==> SlotsFit(PublishSlots(m)) && UsersFit(m.users)
  {
    var s := PublishSlots(m);
    assert s[1].val == FromBin(m.correlationData) && s[3].val == FromStr(m.contentType);
    assert s[5].val == FromStr(m.responseTopic);
  }

  method WritePublish(m: Publication, size: nat, buf: seq<byte>) returns (r: Output)
    requires size == PublishSize(m) <= VarInt.MAX_VARINT
    ensures r == Behind(buf, Publish(m), 0)
  {
    hide PutBytes, PutU16, VarInt.Put, VarInt.Len, VarInt.FromSize, PutPublishProps, PublishPropLen, PublishFits;
    if !Fits(m.topic) {
      return Err(EncInvalidLength);
    }
    var out := PutBytes(m.topic);
    if m.qos == 0 {
      if m.packetId.Some? {
        return Err(EncMalformedPacket);
      }
    } else {
      if m.packetId.None? {
        return Err(EncPacketIdRequired);
      }
      out := out + PutU16(m.packetId.value);
    }
    VarInt.FromSizeInverts(PublishPropLen(m));
    assert |out| == 2 + |m.topic| + (if m.qos == 0 then 0 else 2);
    var n := VarInt.FromSize(size - (|out| + |m.payload|));
    var props := WritePublishProps(m);
    if props.Err? {
      return Err(props.error);
    }
    WrittenIsPublish(m, out, n, props.value);
    return Ok(buf + (out + VarInt.Put(n) + props.value + m.payload));
  }

  lemma WrittenIsPublish(m: Publication, out: seq<byte>, n: nat, props: seq<byte>)
    requires PublishOk(m) && n == PublishPropLen(m) && props == (PublishWritable(m); PutPublishProps(m))
    requires out == if m.qos == 0 then PutBytes(m.topic) else PutBytes(m.topic) + PutU16(m.packetId.value)
    ensures out + VarInt.Put(n) + props + m.payload == PublishBody(m)
  {
    hide PutBytes, PutU16, VarInt.Put, VarInt.Len, PutPublishProps, PublishPropLen, PublishBody;
    PublishShape(m);
    var t, v := PutBytes(m.topic), VarInt.Put(n);
    if m.qos == 0 {
      assert t + v + props + m.payload == t + ([] + (v + (props + m.payload)));
    } else {
      var i := PutU16(m.packetId.value);
      assert t + i + v + props + m.payload == t + (i + (v + (props + m.payload)));
    }
  }

  method WriteConnect(c: Connection, buf: seq<byte>) returns (r: Output)
    requires ConnectSize(c) <= VarInt.MAX_VARINT
    ensures r == Behind(buf, Connect(c), 0)
  {
    hide ConnectSize, ConnectHead, SlotProps, UserProps, PutProps, Writable, SlotsOk, SlotsSize, ConnectSlots;
    hide PutBytes, PutWill, PutOpt, ConnectFits, UsersFit, SlotsFit, UsersSize, VarInt.Put, VarInt.Len;
    hide BlockProps, ConnectPropLen;
    ConnectLens(c);
    ConnectSlotsOk(c);
    SlotsNotVar(CONNECT_TABLE, ConnectSlots(c));
    ConnectFitsParts(c);
    var users := CountUsers(c.users);
    var n := SlotsSize(ConnectSlots(c)) + users;
    assert n == ConnectPropLen(c) by { ConnectLens(c); }
    var slots := WriteProps(SlotProps(ConnectSlots(c)), ConnectHead(c) + VarInt.Put(n));
    if slots.Err? {
      if ConnectFits(c) { SlotPropsWritable(CONNECT_TABLE, ConnectSlots(c)); }
      return Err(slots.error);
    }
    WritableSlotsFit(ConnectSlots(c));
    var props := WriteUsers(c.users, slots.value);
    if props.Err? {
      return Err(props.error);
    }
    var end := WriteConnectEnd(c);
    if end.Err? {
      return Err(end.error);
    }
    WrittenIsConnect(c, props.value, end.value);
    return Ok(buf + (props.value + end.value));
  }

  lemma ConnectLens(c: Connection)
    requires ConnectSize(c) <= VarInt.MAX_VARINT
    ensures ConnectPropLen(c) == SlotsSize(ConnectSlots(c)) + UsersSize(c.users) <= VarInt.MAX_VARINT
    ensures c.will.Some? ==> WillPropLen(c.will.value) <= VarInt.MAX_VARINT
  {
    hide SlotsSize, UsersSize, ConnectSlots, WillSlots, VarInt.Len;
  }

  /** The fields behind the properties fit. */
  predicate EndFits(c: Connection) {
    && Fits(c.clientId) && (c.will.Some? ==> Fits(c.will.value.topic) && Fits(c.will.value.message))
    && OptFits(c.username) && OptFits(c.password)
  }

  lemma ConnectFitsParts(c: Connection)
    ensures ConnectFits(c) <==> SlotsFit(ConnectSlots(c)) && UsersFit(c.users) && EndFits(c)
  {
    var s := ConnectSlots(c);
    assert s[1].val == FromStr(c.authMethod) && s[2].val == FromBin(c.authData);
  }

  /** Client identifier, will, user name and password, in this order. */
  method WriteConnectEnd(c: Connection) returns (r: Output)
    requires c.will.Some? ==> WillPropLen(c.will.value) <= VarInt.MAX_VARINT
    ensures r.Ok? <==> EndFits(c)
    ensures r.Err? ==> r == Err(EncInvalidLength)
    ensures r.Ok? ==> r.value == PutBytes(c.clientId) + (PutWill(c.will) + (PutOpt(c.username) + PutOpt(c.password)))
  {
    hide PutBytes, VarInt.Put, WillPropLen;
    if !Fits(c.clientId) {
      return Err(EncInvalidLength);
    }
    var will := [];
    if c.will.Some? {
      var w := c.will.value;
      if !Fits(w.topic) || !Fits(w.message) {
        return Err(EncInvalidLength);
      }
      will := VarInt.Put(WillPropLen(w)) + (PutBytes(w.topic) + PutBytes(w.message));
    }
    if !OptFits(c.username) || !OptFits(c.password) {
      return Err(EncInvalidLength);
    }
    return Ok(PutBytes(c.clientId) + (will + (PutOpt(c.username) + PutOpt(c.password))));
  }

  lemma WrittenIsConnect(c: Connection, props: seq<byte>, end: seq<byte>)
    requires ConnectOk(c) && Writable(SlotProps(ConnectSlots(c))) && Writable(UserProps(c.users))
    requires props == ConnectHead(c) + VarInt.Put(ConnectPropLen(c)) + PutProps(SlotProps(ConnectSlots(c)))
                      + PutProps(UserProps(c.users))
    requires end == PutBytes(c.clientId) + (PutWill(c.will) + (PutOpt(c.username) + PutOpt(c.password)))
    ensures props + end == ConnectBody(c)
  {
    hide ConnectHead, SlotProps, UserProps, PutProps, Writable, ConnectSlots, VarInt.Put, ConnectPropLen;
    hide PutBytes, PutWill, PutOpt;
    ConnectWritable(c);
    var h, v, e := ConnectHead(c), VarInt.Put(ConnectPropLen(c)), ConnectEnd(c);
    var sp, up := SlotProps(ConnectSlots(c)), UserProps(c.users);
    assert BlockProps(ConnectSlots(c), c.users, None) == sp + up by { assert up + [] == up; }
    PutPropsConcat(sp, up);
    var a, b := PutProps(sp), PutProps(up);
    assert h + v + a + b + e == h + (v + (a + b) + e);
  }

  /** The body of any packet, written at the size of the size pass. */
  method WritePass(p: Packet, limit: u32, size: nat, buf: seq<byte>) returns (r: Output)
    requires size == ContentSize(p, limit) <= VarInt.MAX_VARINT
    ensures r == Behind(buf, p, limit)
  {
    hide LimitedSize, ConnectSize, PublishSize, SubscribeSize, UnsubscribeSize, Writes, LayoutOf;
    hide ConnectBody, PublishBody, PutSubscribe, PutUnsubscribe, PutLimited, ConnectFits, PublishFits;
    hide FiltersFit, TopicsFit;
    if IsLimited(p) {
      r := WriteLimited(p, limit, size, buf);
    } else if p.Connect? {
      r := WriteConnect(p.connection, buf);
    } else if p.Publish? {
      r := WritePublish(p.publication, size, buf);
    } else if p.Subscribe? {
      r := WriteSubscribe(p.subscription, buf);
    } else if p.Unsubscribe? {
      r := WriteUnsubscribe(p.unsubscription, buf);
    } else {
      assert buf + [] == buf;
      r := Ok(buf);
    }
  }
}
