/** PUBLISH, CONNECT, SUBSCRIBE and UNSUBSCRIBE: exactly which packets survive encoding and decoding. */
module V5PlainRoundTrip {
  import opened Wrappers
  import opened Bytes
  import opened PacketTypes
  import opened Props
  import opened LimitedProps
  import opened PropBlocks
  import opened V5Packets
  import opened V5Plain
  import VarInt
  import V5LimitedRoundTrip

  // ----- Lists

  lemma FilterBits(q: nat, n: nat, r: nat, h: nat)
    requires q < 4 && n < 2 && r < 2 && h < 4
    ensures var v := q + 4 * n + 8 * r + 16 * h;
            v % 4 == q && v / 4 % 2 == n && v / 8 % 2 == r && v / 16 % 4 == h
  {
  }

  lemma {:induction false} FiltersRoundTrip(fs: seq<Filter>)
    requires FiltersFit(fs)
    ensures GetFilters(PutFilters(fs)) == Ok(fs)
  {
    hide GetStr, PutBytes;
    if fs != [] {
      var f := fs[0];
      var tail := [FilterByte(f)] + PutFilters(fs[1..]);
      FiltersRoundTrip(fs[1..]);
      StrRoundTrip(f.topic, tail);
      FilterBits(f.qos, Bit(f.noLocal), Bit(f.retainAsPublished), f.retainHandling);
      assert tail[1..] == PutFilters(fs[1..]);
      assert fs == [f] + fs[1..];
    }
  }

  lemma {:induction false} FiltersDecodedSize(src: seq<byte>)
    ensures GetFilters(src).Ok? ==> FiltersSize(GetFilters(src).value) == |src|
    decreases |src|
  {
    if GetFilters(src).Ok? && src != [] {
      var Read(topic, r1) := GetStr(src).value;
      FiltersDecodedSize(r1[1..]);
      assert GetFilters(src).value[1..] == GetFilters(r1[1..]).value;
    }
  }

  // ----- Accounting: what was read accounts for the bytes it was read from

  lemma {:induction false} WeightParts(ps: seq<Prop>)
    ensures UsersSize(UsersOf(ps)) + IdsSize(IdsOf(ps)) <= Weight(ps)
  {
    if ps != [] {
      WeightParts(ps[1..]);
      var v := ps[0].val;
      if v.VPair? {
        assert UsersOf(ps)[1..] == UsersOf(ps[1..]) && IdsOf(ps) == IdsOf(ps[1..]);
      } else if v.VVar? {
        assert IdsOf(ps)[1..] == IdsOf(ps[1..]) && UsersOf(ps) == UsersOf(ps[1..]);
      } else {
        assert UsersOf(ps) == UsersOf(ps[1..]) && IdsOf(ps) == IdsOf(ps[1..]);
      }
    }
  }

  /** A block that announces `n` bytes: its properties weigh at most that much. */
  lemma AnnouncedBlock(table: Table, n: nat, rest: seq<byte>)
    requires n <= VarInt.MAX_VARINT && GetBlock(table, VarInt.Put(n) + rest).Ok?
    ensures n <= |rest|
    ensures GetProps(table, rest[..n], []) == Ok(GetBlock(table, VarInt.Put(n) + rest).value.value)
    ensures GetBlock(table, VarInt.Put(n) + rest).value.rest == rest[n..]
    ensures var ps := GetBlock(table, VarInt.Put(n) + rest).value.value;
            UsersSize(UsersOf(ps)) + IdsSize(IdsOf(ps)) <= n
  {
    hide GetProps, VarInt.Get, VarInt.Put, UsersSize, UsersOf, IdsSize, IdsOf, Weight;
    VarInt.RoundTrip(n, rest);
    var ps := GetProps(table, rest[..n], []).value;
    AcceptedProps(table, rest[..n], []);
    WeightParts(ps);
    assert Weight([]) == 0 by { WeightNone(); }
  }

  lemma WeightNone()
    ensures Weight([]) == 0
  {
  }

  /** An empty block. */
  lemma EmptyBlock(table: Table, rest: seq<byte>)
    ensures GetBlock(table, VarInt.Put(0) + rest) == Ok(Read([], rest))
  {
  }

  // ----- SUBSCRIBE

  predicate SubscribeOk(s: Subscription) {
    FiltersFit(s.filters) && SubscribeSize(s) <= VarInt.MAX_VARINT
  }

  /** The bytes after the length of the properties. */
  function SubscribeRest(s: Subscription): seq<byte>
    requires FiltersFit(s.filters)
  {
    (if s.subscriptionId.Some? then [SUB_ID] + PutU32(s.subscriptionId.value) else []) + PutFilters(s.filters)
  }

  lemma SubscribeReads(s: Subscription)
    requires SubscribeOk(s)
    ensures GetNz16(PutSubscribe(s)) == Ok(Read(s.id, VarInt.Put(SubscribePropLen(s)) + SubscribeRest(s)))
  {
  }

  lemma SubscribePlain(s: Subscription)
    requires SubscribeOk(s) && s.subscriptionId.None? && s.users == []
    ensures GetSubscribe(PutSubscribe(s)) == Ok(s)
  {
    hide GetNz16, GetBlock, PutFilters, GetFilters, VarInt.Put, PutU16;
    SubscribeReads(s);
    assert SubscribeRest(s) == PutFilters(s.filters);
    EmptyBlock(SUBSCRIBE_TABLE, PutFilters(s.filters));
    FiltersRoundTrip(s.filters);
  }

  lemma SubscribeOnlyPlain(s: Subscription)
    requires SubscribeOk(s) && GetSubscribe(PutSubscribe(s)) == Ok(s)
    ensures s.subscriptionId.None? && s.users == []
  {
    hide GetNz16, GetBlock, PutFilters, GetFilters, VarInt.Put, PutU16, VarInt.Len, IdsOf, UsersOf;
    SubscribeReads(s);
    var n, rest := SubscribePropLen(s), SubscribeRest(s);
    AnnouncedBlock(SUBSCRIBE_TABLE, n, rest);
    FiltersDecodedSize(rest[n..]);
    var ps := GetBlock(SUBSCRIBE_TABLE, VarInt.Put(n) + rest).value.value;
    assert UsersOf(ps) == s.users && (IdsOf(ps) == [] <==> s.subscriptionId.None?);
    assert n == if s.subscriptionId.Some? then 5 else 0;
    if s.subscriptionId.Some? {
      IdsSizeFirst(IdsOf(ps));
      assert false;
    }
    UsersSizeZero(s.users);
  }

  lemma IdsSizeFirst(ids: seq<nz32>)
    requires ids != []
    ensures IdsSize(ids) >= 1 + VarInt.Len(ids[0])
  {
  }

  lemma UsersSizeZero(users: seq<UserProp>)
    ensures UsersSize(users) == 0 <==> users == []
  {
  }

  /** A SUBSCRIBE survives exactly if it has neither a subscription identifier nor user properties. */
  lemma SubscribeIff(s: Subscription)
    requires SubscribeOk(s)
    ensures GetSubscribe(PutSubscribe(s)) == Ok(s) <==> s.subscriptionId.None? && s.users == []
    ensures s.subscriptionId.None? && s.users == [] ==> |PutSubscribe(s)| == SubscribeSize(s)
  {
    hide GetSubscribe, VarInt.Put, VarInt.Len;
    if s.subscriptionId.None? && s.users == [] {
      SubscribePlain(s);
      VarInt.LenIsWritten(SubscribePropLen(s));
    }
    if GetSubscribe(PutSubscribe(s)) == Ok(s) {
      SubscribeOnlyPlain(s);
    }
  }

  // ----- UNSUBSCRIBE

  predicate UnsubscribeOk(u: Unsubscription) {
    TopicsFit(u.topics) && UnsubscribeSize(u) <= VarInt.MAX_VARINT
  }

  lemma UnsubscribeReads(u: Unsubscription)
    requires UnsubscribeOk(u)
    ensures GetNz16(PutUnsubscribe(u)) == Ok(Read(u.id, VarInt.Put(UsersSize(u.users)) + PutTopics(u.topics)))
  {
  }

  lemma UnsubscribeOnlyPlain(u: Unsubscription)
    requires UnsubscribeOk(u) && GetUnsubscribe(PutUnsubscribe(u)) == Ok(u)
    ensures u.users == []
  {
    hide GetNz16, GetBlock, PutTopics, GetTopics, VarInt.Put, PutU16, UsersOf;
    UnsubscribeReads(u);
    var n, rest := UsersSize(u.users), PutTopics(u.topics);
    AnnouncedBlock(UNSUBSCRIBE_TABLE, n, rest);
    TopicsDecodedSize(rest[n..]);
    UsersSizeZero(u.users);
  }

  /** An UNSUBSCRIBE survives exactly if it has no user properties. */
  lemma UnsubscribeIff(u: Unsubscription)
    requires UnsubscribeOk(u)
    ensures GetUnsubscribe(PutUnsubscribe(u)) == Ok(u) <==> u.users == []
    ensures u.users == [] ==> |PutUnsubscribe(u)| == UnsubscribeSize(u)
  {
    hide GetNz16, GetBlock, PutTopics, GetTopics, VarInt.Put, VarInt.Len, PutU16, UsersSize;
    UsersSizeZero(u.users);
    if u.users == [] {
      UnsubscribeReads(u);
      EmptyBlock(UNSUBSCRIBE_TABLE, PutTopics(u.topics));
      TopicsRoundTrip(u.topics);
      VarInt.LenIsWritten(UsersSize(u.users));
    }
    if GetUnsubscribe(PutUnsubscribe(u)) == Ok(u) {
      UnsubscribeOnlyPlain(u);
    }
  }

  // ----- PUBLISH

  lemma PublishSlotsOk(p: Publication)
    ensures SlotsOk(PUBLISH_TABLE, PublishSlots(p))
  {
    hide FromNz16, FromNz32, FromBool, FromStr, FromBin, Suits;
    V5LimitedRoundTrip.FieldsSuit(p.isUtf8, None, None, p.topicAlias, None, p.messageExpiry, p.contentType,
                                  p.correlationData);
    V5LimitedRoundTrip.FieldsSuit(None, None, None, None, None, None, p.responseTopic, None);
  }

  lemma PublishWritable(p: Publication)
    requires PublishFits(p)
    ensures Writable(SlotProps(PublishSlots(p))) && Writable(UserProps(p.users))
    ensures |PutPublishProps(p)| == SlotsSize(PublishSlots(p)) + 5 * |Ids(p)| + UsersSize(p.users)
  {
    hide SlotProps, UserProps, SlotsOk, SlotsSize, UsersSize, Weight, PutProps;
    PublishSlotsOk(p);
    PublishSlotsFit(p);
    SlotPropsWritable(PUBLISH_TABLE, PublishSlots(p));
    UserPropsWritable(p.users);
  }

  lemma PublishSlotsFit(p: Publication)
    requires PublishFits(p)
    ensures SlotsFit(PublishSlots(p))
  {
  }

  predicate PublishOk(p: Publication) {
    PublishFits(p) && PublishIdRule(p) && PublishSize(p) <= VarInt.MAX_VARINT
  }

  /** The encoded body of a publish packet. */
  function PublishBody(p: Publication): seq<byte>
    requires PublishOk(p)
  {
    PublishWritable(p);
    VarInt.FromSizeInverts(PublishPropLen(p));
    PutPublish(p, PublishSize(p))
  }

  /** The bytes after the length of the properties. */
  function PublishRest(p: Publication): seq<byte>
    requires PublishFits(p)
  {
    PublishWritable(p);
    PutPublishProps(p) + p.payload
  }

  /** Up to the properties the body reads back as it was written. */
  lemma PublishReads(p: Publication)
    requires PublishOk(p)
    ensures GetPublish(PublishFlags(p), PublishBody(p))
         == GetPublishTail(p.dup, p.retain, p.qos, p.packetId, p.topic,
                           VarInt.Put(PublishPropLen(p)) + PublishRest(p))
  {
    hide GetPublishTail, GetStr, GetNz16, PutBytes, PutU16, VarInt.Put, VarInt.Len, VarInt.FromSize;
    hide PutPublishProps, PublishPropLen, PublishRest;
    PublishWritable(p);
    VarInt.FromSizeInverts(PublishPropLen(p));
    PublishShape(p);
    var rest := VarInt.Put(PublishPropLen(p)) + PublishRest(p);
    if p.qos == 0 {
      assert [] + rest == rest;
      StrRoundTrip(p.topic, rest);
    } else {
      StrRoundTrip(p.topic, PutU16(p.packetId.value) + rest);
      U16RoundTrip(p.packetId.value, rest);
    }
  }

  lemma PublishShape(p: Publication)
    requires PublishOk(p)
    ensures PublishBody(p) ==
            PutBytes(p.topic) + ((if p.packetId.Some? then PutU16(p.packetId.value) else [])
                                 + (VarInt.Put(PublishPropLen(p)) + PublishRest(p)))
    ensures PublishRest(p) == (PublishWritable(p); PutPublishProps(p)) + p.payload
  {
  }

  /** Each field comes back from its own slot. */
  lemma PublishSlotLookup(p: Publication, ps: seq<Prop>)
    requires forall i :: 0 <= i < |PublishSlots(p)| ==> Find(ps, PublishSlots(p)[i].id) == PublishSlots(p)[i].val
    ensures BuildPublish(p.dup, p.retain, p.qos, p.packetId, p.topic, ps, p.payload)
         == p.(users := UsersOf(ps), subscriptionIds := if IdsOf(ps) == [] then None else Some(IdsOf(ps)))
  {
    hide Find, UsersOf, IdsOf, Utf8;
    var s := PublishSlots(p);
    assert Find(ps, s[0].id) == s[0].val && Find(ps, s[1].id) == s[1].val && Find(ps, s[2].id) == s[2].val;
    assert Find(ps, s[3].id) == s[3].val && Find(ps, s[4].id) == s[4].val && Find(ps, s[5].id) == s[5].val;
  }

  lemma {:induction false} IdsOfNone(ps: seq<Prop>)
    requires forall i :: 0 <= i < |ps| ==> !ps[i].val.VVar?
    ensures IdsOf(ps) == []
  {
    if ps != [] { IdsOfNone(ps[1..]); }
  }

  lemma PublishPlain(p: Publication)
    requires PublishOk(p) && p.subscriptionIds.None?
    ensures GetPublish(PublishFlags(p), PublishBody(p)) == Ok(p)
  {
    hide GetPublish, PublishBody, GetBlock, PutProps, SlotProps, UserProps, SlotsOk, SlotsSize, UsersSize;
    hide UsersOf, Find, IdsOf, BuildPublish, PublishSlots, ReasonProps, VarInt.Put;
    var slots := PublishSlots(p);
    var ps := BlockProps(slots, p.users, None);
    PublishReads(p);
    PublishSlotsOk(p);
    PublishWritable(p);
    PublishPlainProps(p);
    BlockLegal(PUBLISH_TABLE, slots, p.users, None);
    BlockRoundTrip(PUBLISH_TABLE, ps, p.payload);
    assert VarInt.Put(Weight(ps)) + PutProps(ps) + p.payload == VarInt.Put(PublishPropLen(p)) + PublishRest(p) by {
      assert VarInt.Put(Weight(ps)) + PutProps(ps) + p.payload == VarInt.Put(Weight(ps)) + (PutProps(ps) + p.payload);
    }
    BlockLookup(PUBLISH_TABLE, slots, p.users, None);
    PublishSlotLookup(p, ps);
    IdsOfNone(ps);
  }

  lemma PublishPlainProps(p: Publication)
    requires PublishFits(p) && p.subscriptionIds.None?
    ensures var ps := BlockProps(PublishSlots(p), p.users, None);
            && Writable(ps) && Weight(ps) == PublishPropLen(p)
            && (PublishWritable(p); PutPublishProps(p)) == PutProps(ps)
  {
    hide SlotProps, UserProps, SlotsOk, SlotsSize, UsersSize, PublishSlots, PutProps, Weight;
    PublishSlotsOk(p);
    PublishSlotsFit(p);
    PublishWritable(p);
    SlotPropsWritable(PUBLISH_TABLE, PublishSlots(p));
    UserPropsWritable(p.users);
    var sp, up := SlotProps(PublishSlots(p)), UserProps(p.users);
    assert BlockProps(PublishSlots(p), p.users, None) == sp + up by { assert up + [] == up; }
    PutPropsConcat(sp, up);
    WeightAppend(sp, up);
    assert [] + PutProps(up) == PutProps(up);
    NoIds();
  }

  lemma NoIds()
    ensures IdsSize([]) == 0 && PutIds([]) == []
  {
  }

  /** With subscription identifiers the announced length can only fit if each takes four bytes ... */
  lemma {:induction false} IdsAllWide(ids: seq<nz32>)
    requires forall i :: 0 <= i < |ids| ==> ids[i] <= VarInt.MAX_VARINT
    ensures IdsSize(ids) <= 5 * |ids|
    ensures IdsSize(ids) == 5 * |ids| && ids != [] ==> ids[0] >= 2097152
  {
    if ids != [] { IdsAllWide(ids[1..]); }
  }

  /** ... and then the first byte of the first one is read as the whole identifier. */
  lemma WideIdMisread(id: nz32, rest: seq<byte>)
    requires 2097152 <= id <= VarInt.MAX_VARINT
    ensures GetId(PutU32(id) + rest).Ok? ==> GetId(PutU32(id) + rest).value.value != VVar(id)
  {
  }

  lemma {:induction false} IdsOfPrefix(a: seq<Prop>, ps: seq<Prop>)
    requires a <= ps
    ensures IdsOf(a) <= IdsOf(ps)
  {
    if a != [] {
      assert ps[0] == a[0];
      IdsOfPrefix(a[1..], ps[1..]);
    }
  }

  lemma {:induction false} IdsOfBounded(table: Table, src: seq<byte>, acc: seq<Prop>)
    requires GetProps(table, src, acc).Ok?
    requires forall i :: 0 <= i < |acc| && acc[i].val.VVar? ==> acc[i].val.n <= VarInt.MAX_VARINT
    ensures var ps := GetProps(table, src, acc).value;
            forall i :: 0 <= i < |ps| && ps[i].val.VVar? ==> ps[i].val.n <= VarInt.MAX_VARINT
    decreases |src|
  {
    hide GetVal;
    if src != [] {
      ValConsumes(table[src[0]], src[1..]);
      var Read(v, rest) := GetVal(table[src[0]], src[1..]).value;
      IdsOfBounded(table, rest, acc + [Prop(src[0], v)]);
    }
  }

  lemma {:induction false} IdsOfElements(ps: seq<Prop>)
    requires forall i :: 0 <= i < |ps| && ps[i].val.VVar? ==> ps[i].val.n <= VarInt.MAX_VARINT
    ensures forall i :: 0 <= i < |IdsOf(ps)| ==> IdsOf(ps)[i] <= VarInt.MAX_VARINT
  {
    if ps != [] { IdsOfElements(ps[1..]); }
  }

  lemma {:induction false} IdsOfLast(a: seq<Prop>, p: Prop)
    requires forall i :: 0 <= i < |a| ==> !a[i].val.VVar?
    requires p.val.VVar?
    ensures IdsOf(a + [p]) == [p.val.n]
  {
    if a == [] {
      assert [p][1..] == [];
    } else {
      IdsOfLast(a[1..], p);
      assert (a + [p])[1..] == a[1..] + [p];
    }
  }

  /** Reading the properties of a publish packet whose first identifier is wide. */
  lemma FirstIdMisread(p: Publication, more: seq<byte>)
    requires PublishFits(p) && Ids(p) != [] && 2097152 <= Ids(p)[0] <= VarInt.MAX_VARINT
    ensures var src := (PublishWritable(p); PutProps(SlotProps(PublishSlots(p))))
                       + ([SUB_ID] + PutU32(Ids(p)[0]) + more);
            var r := GetProps(PUBLISH_TABLE, src, []);
            r.Ok? ==> IdsOf(r.value) != [] && IdsOf(r.value)[0] != Ids(p)[0]
  {
    hide SlotProps, PutProps, SlotsOk, PublishSlots, PutU32, GetProps, IdsOf, Suits;
    var sp := SlotProps(PublishSlots(p));
    PublishSlotsOk(p);
    PublishWritable(p);
    SlotsLegal(PUBLISH_TABLE, PublishSlots(p));
    PropsRoundTrip(PUBLISH_TABLE, [], sp, [SUB_ID] + PutU32(Ids(p)[0]) + more);
    assert [] + sp == sp;
    SlotsNotVar(PUBLISH_TABLE, PublishSlots(p));
    NextIdMisread(sp, Ids(p)[0], more);
  }

  lemma NextIdMisread(acc: seq<Prop>, id: nz32, more: seq<byte>)
    requires 2097152 <= id <= VarInt.MAX_VARINT
    requires forall i :: 0 <= i < |acc| ==> !acc[i].val.VVar?
    ensures var r := GetProps(PUBLISH_TABLE, [SUB_ID] + PutU32(id) + more, acc);
            r.Ok? ==> IdsOf(r.value) != [] && IdsOf(r.value)[0] != id
  {
    hide PutU32, GetId, IdsOf;
    var x := [SUB_ID] + PutU32(id) + more;
    assert x[0] == SUB_ID && x[1..] == PutU32(id) + more;
    WideIdMisread(id, more);
    var r := GetProps(PUBLISH_TABLE, x, acc);
    if r.Ok? {
      var Read(v, rest) := GetId(PutU32(id) + more).value;
      ValConsumes(KIds, PutU32(id) + more);
      var acc' := acc + [Prop(SUB_ID, v)];
      GetPropsExtends(PUBLISH_TABLE, rest, acc');
      IdsOfPrefix(acc', r.value);
      IdsOfLast(acc, Prop(SUB_ID, v));
    }
  }

  lemma SlotsLegal(table: Table, slots: seq<Slot>)
    requires SlotsOk(table, slots)
    ensures Legal(table, [], SlotProps(slots))
  {
    SlotPropsSuit(table, slots);
  }

  lemma SlotsNotVar(table: Table, slots: seq<Slot>)
    requires SlotsOk(table, slots)
    ensures forall i :: 0 <= i < |SlotProps(slots)| ==> !SlotProps(slots)[i].val.VVar?
  {
  }

  lemma {:induction false} GetPropsExtends(table: Table, src: seq<byte>, acc: seq<Prop>)
    requires GetProps(table, src, acc).Ok?
    ensures acc <= GetProps(table, src, acc).value
    decreases |src|
  {
    hide GetVal;
    if src != [] {
      var Read(v, rest) := GetVal(table[src[0]], src[1..]).value;
      GetPropsExtends(table, rest, acc + [Prop(src[0], v)]);
    }
  }

  lemma PublishOnlyPlain(p: Publication)
    requires PublishOk(p) && GetPublish(PublishFlags(p), PublishBody(p)) == Ok(p)
    ensures p.subscriptionIds.None?
  {
    hide GetPublish, PublishBody, GetBlock, PutProps, SlotProps, UserProps, SlotsSize, UsersSize, UsersOf;
    hide IdsOf, Find, PublishSlots, VarInt.Put, VarInt.Len, IdsSize, PutIds, GetProps;
    PublishReads(p);
    var n, rest := PublishPropLen(p), PublishRest(p);
    AnnouncedBlock(PUBLISH_TABLE, n, rest);
    var ps := GetBlock(PUBLISH_TABLE, VarInt.Put(n) + rest).value.value;
    PublishWritable(p);
    assert rest[n..] == p.payload;
    assert |rest| == n + |p.payload| && IdsSize(Ids(p)) == 5 * |Ids(p)|;
    if p.subscriptionIds.Some? {
      assert IdsOf(ps) == Ids(p) && Ids(p) != [];
      IdsOfBounded(PUBLISH_TABLE, rest[..n], []);
      IdsOfElements(ps);
      IdsAllWide(Ids(p));
      var id := Ids(p)[0];
      PublishRestSplit(p);
      assert rest[..n] == PutPublishProps(p);
      FirstIdMisread(p, PutIds(Ids(p)[1..]) + PutProps(UserProps(p.users)));
      assert false;
    }
  }

  lemma PublishRestSplit(p: Publication)
    requires PublishFits(p) && Ids(p) != []
    ensures Writable(SlotProps(PublishSlots(p))) && Writable(UserProps(p.users))
    ensures PutPublishProps(p)
         == PutProps(SlotProps(PublishSlots(p)))
            + ([SUB_ID] + PutU32(Ids(p)[0]) + (PutIds(Ids(p)[1..]) + PutProps(UserProps(p.users))))
  {
    hide SlotProps, PutProps, UserProps, PutU32, PublishSlots;
    PublishWritable(p);
    var h, x, u := [SUB_ID] + PutU32(Ids(p)[0]), PutIds(Ids(p)[1..]), PutProps(UserProps(p.users));
    assert PutIds(Ids(p)) == h + x;
    assert h + x + u == h + (x + u);
  }

  /** A PUBLISH survives exactly if it carries no subscription identifiers. */
  lemma PublishIff(p: Publication)
    requires PublishOk(p)
    ensures GetPublish(PublishFlags(p), PublishBody(p)) == Ok(p) <==> p.subscriptionIds.None?
    ensures p.subscriptionIds.None? ==> |PublishBody(p)| == PublishSize(p)
  {
    hide GetPublish, SlotsSize, UsersSize, PutPublishProps, VarInt.Put, VarInt.Len, PublishSlots;
    if p.subscriptionIds.None? {
      PublishPlain(p);
      PublishWritable(p);
      PublishShape(p);
      NoIds();
      VarInt.LenIsWritten(PublishPropLen(p));
    }
    if GetPublish(PublishFlags(p), PublishBody(p)) == Ok(p) {
      PublishOnlyPlain(p);
    }
  }

  // ----- CONNECT

  lemma ConnectSlotsOk(c: Connection)
    ensures SlotsOk(CONNECT_TABLE, ConnectSlots(c))
  {
    hide From16, From32, FromNz16, FromNz32, FromBool, FromStr, FromBin, Suits, Unless, NonZero;
    V5LimitedRoundTrip.FieldsSuit(Unless(c.problemInfo, true), None, NonZero(c.topicAliasMax), c.receiveMax,
                                  c.sessionExpiry, c.maxPacketSize, c.authMethod, c.authData);
    V5LimitedRoundTrip.FieldsSuit(Unless(c.responseInfo, false), None, None, None, None, None, None, None);
  }

  lemma ConnectSlotsFit(c: Connection)
    requires ConnectFits(c)
    ensures SlotsFit(ConnectSlots(c))
  {
  }

  lemma ConnectWritable(c: Connection)
    requires ConnectFits(c)
    ensures var ps := BlockProps(ConnectSlots(c), c.users, None);
            Writable(ps) && Weight(ps) == ConnectPropLen(c)
  {
    hide SlotProps, UserProps, SlotsOk, SlotsSize, UsersSize, ConnectSlots, PutProps, Weight;
    ConnectSlotsOk(c);
    ConnectSlotsFit(c);
    SlotPropsWritable(CONNECT_TABLE, ConnectSlots(c));
    UserPropsWritable(c.users);
    var sp, up := SlotProps(ConnectSlots(c)), UserProps(c.users);
    assert BlockProps(ConnectSlots(c), c.users, None) == sp + up by { assert up + [] == up; }
    PutPropsConcat(sp, up);
    WeightAppend(sp, up);
  }

  predicate ConnectOk(c: Connection) {
    && ConnectFits(c) && ConnectSize(c) <= VarInt.MAX_VARINT
  }

  /** The encoded body of a connect packet. */
  function ConnectBody(c: Connection): seq<byte>
    requires ConnectOk(c)
  {
    ConnectWritable(c);
    PutConnect(c)
  }

  /** What a reader takes from a flags byte. */
  ghost predicate FlagsSay(f: byte, c: Connection) {
    && f % 2 == 0
    && (f / 2 % 2 == 1 <==> c.cleanStart)
    && (f / 4 % 2 == 1 <==> c.will.Some?)
    && (c.will.Some? ==> f / 8 % 4 == c.will.value.qos && (f / 32 % 2 == 1 <==> c.will.value.retain))
    && (f / 64 % 2 == 1 <==> c.password.Some?)
    && (f / 128 == 1 <==> c.username.Some?)
  }

  lemma FlagsRoundTrip(c: Connection)
    ensures FlagsSay(ConnectFlags(c), c)
  {
    FlagBits(Bit(c.username.Some?), Bit(c.password.Some?),
             if c.will.Some? then Bit(c.will.value.retain) else 0,
             if c.will.Some? then c.will.value.qos else 0,
             Bit(c.will.Some?), Bit(c.cleanStart));
  }

  /** Up to the client identifier the body reads back as it was written. */
  lemma ConnectReads(c: Connection)
    requires ConnectOk(c)
    ensures GetConnect(ConnectBody(c))
         == GetConnectEnd(ConnectFlags(c), c.keepAlive, BlockProps(ConnectSlots(c), c.users, None), ConnectEnd(c))
  {
    hide GetConnectEnd, GetBlock, PutProps, BlockProps, ConnectSlots, ConnectFlags, ConnectEnd, VarInt.Put;
    hide ConnectPropLen;
    ConnectWritable(c);
    FlagsRoundTrip(c);
    ConnectSlotsOk(c);
    BlockLegal(CONNECT_TABLE, ConnectSlots(c), c.users, None);
    BlockRoundTrip(CONNECT_TABLE, BlockProps(ConnectSlots(c), c.users, None), ConnectEnd(c));
    var b := ConnectBody(c);
    var h := ConnectHead(c);
    assert b[..6] == h[..6] && b[6] == h[6] && b[7] == h[7] && b[8] == h[8] && b[9] == h[9];
    assert b[10..]
        == VarInt.Put(ConnectPropLen(c)) + PutProps(BlockProps(ConnectSlots(c), c.users, None)) + ConnectEnd(c);
  }

  /** Each field comes back from its own slot. */
  lemma ConnectSlotLookup(c: Connection, ps: seq<Prop>, f: byte)
    requires forall i :: 0 <= i < |ConnectSlots(c)| ==> Find(ps, ConnectSlots(c)[i].id) == ConnectSlots(c)[i].val
    requires UsersOf(ps) == c.users && (f / 2 % 2 == 1 <==> c.cleanStart)
    ensures BuildConnect(f, c.keepAlive, ps, c.clientId, c.will, c.username, c.password) == c
  {
    hide Find, UsersOf, Utf8;
    var s := ConnectSlots(c);
    assert Find(ps, s[0].id) == s[0].val && Find(ps, s[1].id) == s[1].val && Find(ps, s[2].id) == s[2].val;
    assert Find(ps, s[3].id) == s[3].val && Find(ps, s[4].id) == s[4].val && Find(ps, s[5].id) == s[5].val;
    assert Find(ps, s[6].id) == s[6].val && Find(ps, s[7].id) == s[7].val;
  }

  predicate WillPlain(c: Connection) {
    c.will.Some? ==> WillPropLen(c.will.value) == 0
  }

  /** A will without properties is one whose optional fields are all absent. */
  lemma WillPlainMeans(w: Will)
    ensures WillPropLen(w) == 0 <==>
            && w.delay.None? && w.correlationData.None? && w.messageExpiry.None? && w.contentType.None?
            && w.isUtf8.None? && w.responseTopic.None? && w.users == []
  {
    SlotsSizeZero(WillSlots(w));
    UsersSizeZero(w.users);
    var s := WillSlots(w);
    assert s[0].val == From32(w.delay) && s[1].val == FromBin(w.correlationData);
    assert s[2].val == FromNz32(w.messageExpiry);
    assert s[3].val == FromStr(w.contentType) && s[4].val == FromBool(w.isUtf8) && s[5].val == FromStr(w.responseTopic);
  }

  lemma {:induction false} SlotsSizeZero(slots: seq<Slot>)
    ensures SlotsSize(slots) == 0 <==> forall i :: 0 <= i < |slots| ==> slots[i].val.None?
  {
    if slots != [] {
      SlotsSizeZero(slots[1..]);
      assert forall i :: 0 < i < |slots| ==> slots[i] == slots[1..][i - 1];
    }
  }

  lemma WillRoundTrip(f: byte, c: Connection, rest: seq<byte>)
    requires FlagsSay(f, c) && WillPlain(c)
    requires c.will.Some? ==> Fits(c.will.value.topic) && Fits(c.will.value.message)
    ensures GetWill(f, PutWill(c.will) + rest) == Ok(Read(c.will, rest))
  {
    hide GetBlock, GetStr, GetBytes, PutBytes, VarInt.Put, WillPropLen;
    if c.will.Some? {
      var w := c.will.value;
      WillPlainMeans(w);
      assert PutWill(c.will) + rest == VarInt.Put(0) + (PutBytes(w.topic) + (PutBytes(w.message) + rest));
      EmptyBlock(WILL_TABLE, PutBytes(w.topic) + (PutBytes(w.message) + rest));
      StrRoundTrip(w.topic, PutBytes(w.message) + rest);
      BytesRoundTrip(w.message, rest);
    } else {
      assert [] + rest == rest;
    }
  }

  predicate Identified(c: Connection) {
    c.clientId != [] || c.cleanStart
  }

  lemma ConnectPlain(c: Connection)
    requires ConnectOk(c) && WillPlain(c) && Identified(c)
    ensures GetConnect(ConnectBody(c)) == Ok(c)
  {
    hide GetConnect, ConnectBody, BlockProps, ConnectSlots, ConnectFlags, GetStr, PutBytes, PutWill, GetWill;
    hide PutOpt, GetOptStr, GetOptBytes, BuildConnect, WillPropLen, Find, UsersOf;
    var f, ps := ConnectFlags(c), BlockProps(ConnectSlots(c), c.users, None);
    ConnectReads(c);
    FlagsRoundTrip(c);
    var r2 := PutOpt(c.username) + PutOpt(c.password);
    StrRoundTrip(c.clientId, PutWill(c.will) + r2);
    WillRoundTrip(f, c, r2);
    OptRoundTrip(c.username, c.password);
    ConnectSlotsOk(c);
    BlockLookup(CONNECT_TABLE, ConnectSlots(c), c.users, None);
    ConnectSlotLookup(c, ps, f);
  }

  /** A will with properties leaves fewer bytes than its own fields need. */
  lemma WillConsumes(f: byte, w: Will, rest: seq<byte>)
    requires Fits(w.topic) && Fits(w.message) && WillPropLen(w) <= VarInt.MAX_VARINT && f / 4 % 2 == 1
    requires GetWill(f, PutWill(Some(w)) + rest).Ok? && GetWill(f, PutWill(Some(w)) + rest).value.value == Some(w)
    ensures |GetWill(f, PutWill(Some(w)) + rest).value.rest| + WillPropLen(w) == |rest|
  {
    hide GetBlock, GetStr, GetBytes, PutBytes, VarInt.Put, WillPropLen, UsersSize, IdsSize, UsersOf, IdsOf, Find;
    var n := WillPropLen(w);
    var body := PutBytes(w.topic) + PutBytes(w.message) + rest;
    assert PutWill(Some(w)) + rest == VarInt.Put(n) + body;
    AnnouncedBlock(WILL_TABLE, n, body);
    var r2 := GetStr(body[n..]).value.rest;
  }

  lemma ConnectOnlyPlain(c: Connection)
    requires ConnectOk(c) && GetConnect(ConnectBody(c)) == Ok(c)
    ensures WillPlain(c) && Identified(c)
  {
    hide GetConnect, ConnectBody, BlockProps, ConnectSlots, ConnectFlags, GetStr, PutBytes, PutWill, GetWill;
    hide PutOpt, GetOptStr, GetOptBytes, WillPropLen, Find, UsersOf;
    var f, ps := ConnectFlags(c), BlockProps(ConnectSlots(c), c.users, None);
    ConnectReads(c);
    FlagsRoundTrip(c);
    var r2 := PutOpt(c.username) + PutOpt(c.password);
    var r1 := PutWill(c.will) + r2;
    StrRoundTrip(c.clientId, r1);
    if c.will.Some? {
      WillConsumes(f, c.will.value, r2);
      var s2 := GetWill(f, r1).value.rest;
      OptConsumes(f / 128 == 1, s2);
      var s3 := GetOptStr(f / 128 == 1, s2).value.rest;
      OptConsumes(f / 64 % 2 == 1, s3);
      assert |r2| == OptLen(c.username) + OptLen(c.password);
    }
  }

  /** A CONNECT survives exactly if its will has no properties and it is identified or starts clean. */
  lemma ConnectIff(c: Connection)
    requires ConnectOk(c)
    ensures GetConnect(ConnectBody(c)) == Ok(c) <==> WillPlain(c) && Identified(c)
    ensures WillPlain(c) ==> |ConnectBody(c)| == ConnectSize(c)
  {
    hide GetConnect, ConnectSlots, BlockProps, WillPropLen, ConnectPropLen, VarInt.Put, VarInt.Len, PutProps, Weight;
    if WillPlain(c) && Identified(c) { ConnectPlain(c); }
    if GetConnect(ConnectBody(c)) == Ok(c) { ConnectOnlyPlain(c); }
    if WillPlain(c) {
      ConnectWritable(c);
      VarInt.LenIsWritten(ConnectPropLen(c));
      if c.will.Some? { VarInt.LenIsWritten(WillPropLen(c.will.value)); }
    }
  }
}
