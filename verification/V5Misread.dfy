/**
  What the peer makes of the packets that are not read back: those whose excess is negative keep
  it waiting for bytes that were never written; those with a subscription identifier it refuses,
  or takes for another packet.
 */
module V5Misread {
  import opened Wrappers
  import opened Bytes
  import opened Props
  import opened LimitedProps
  import opened PropBlocks
  import opened V5Packets
  import opened V5Plain
  import opened V5PlainRoundTrip
  import opened V5Codec
  import opened V5Streams
  import opened V5Wire
  import VarInt
  import Frames

  // ----- Frames that announce more than they hold

  /** A packet that writes less than it counts: the peer reads nothing and waits. */
  lemma NegativeExcessStalls(cfg: Settings, p: Packet)
    requires Encode(cfg, p).Ok? && Excess(Prepared(cfg, p)) < 0
    ensures Frames.ParseStream(DecodePacket, 0, Encode(cfg, p).value)
         == Frames.Parsed([], Frames.Residue(Encode(cfg, p).value))
  {
    hide Encode, BodyError, ContentSize, PutBody, FirstByte, Prepared, DecodePacket, VarInt.Put, Excess;
    hide Frames.ParseStream, Frames.ReadHeader;
    var q := Prepared(cfg, p);
    EncodeCases(cfg, p);
    BodyLength(q, Limit(cfg));
    var n, body := ContentSize(q, Limit(cfg)), PutBody(q, Limit(cfg));
    Frames.HeaderRoundTrip(0, FirstByte(q), n, body);
    Frames.ParseKnown(DecodePacket, 0, Frames.Header(FirstByte(q), n, 1 + |VarInt.Put(n)|), Encode(cfg, p).value);
  }

  /** Once enough bytes follow, the first of them are taken for the rest of the packet. */
  lemma NegativeExcessSwallows(cfg: Settings, p: Packet, more: seq<byte>)
    requires Encode(cfg, p).Ok? && 0 < -Excess(Prepared(cfg, p)) <= |more|
    ensures var q := Prepared(cfg, p);
            var missing := -Excess(q);
            var size := ContentSize(q, Limit(cfg));
            && size <= VarInt.MAX_VARINT && BodyError(q, size).None?
            && Frames.ParseStream(DecodePacket, 0, Encode(cfg, p).value + more) ==
               match DecodePacket(FirstByte(q), PutBody(q, Limit(cfg)) + more[..missing])
               case Err(e) => Frames.Parsed([], Frames.Fault(e))
               case Ok(x) => Frames.Prepend([x], Frames.ParseStream(DecodePacket, 0, more[missing..]))
  {
    hide Encode, BodyError, ContentSize, PutBody, FirstByte, Prepared, DecodePacket, VarInt.Put, Excess;
    hide Frames.ParseStream;
    var q := Prepared(cfg, p);
    EncodeCases(cfg, p);
    BodyLength(q, Limit(cfg));
    var n, body := ContentSize(q, Limit(cfg)), PutBody(q, Limit(cfg));
    Frames.AnnouncedFrame(DecodePacket, 0, FirstByte(q), n, body + more);
    assert Encode(cfg, p).value + more == [FirstByte(q)] + VarInt.Put(n) + (body + more);
    assert (body + more)[..n] == body + more[..n - |body|] && (body + more)[n..] == more[n - |body|..];
  }

  // ----- Subscription identifiers

  /** An identifier below 2^24, written as four bytes, is read as zero. */
  lemma NarrowIdRefused(id: nz32, more: seq<byte>, k: nat)
    requires id < 0x100_0000 && k <= 4 + |more|
    ensures GetId((PutU32(id) + more)[..k]) == Err(MalformedPacket)
  {
    var s := (PutU32(id) + more)[..k];
    if k > 0 { assert s[0] == PutU32(id)[0] == 0; }
    VarInt.Unfold(s);
  }

  lemma NarrowIdProp(table: Table, acc: seq<Prop>, id: nz32, more: seq<byte>, k: nat)
    requires id < 0x100_0000 && 1 <= k <= 5 + |more|
    requires SUB_ID in table && (table[SUB_ID] == KIds || (table[SUB_ID] == KId && !Has(acc, SUB_ID)))
    ensures GetProps(table, ([SUB_ID] + PutU32(id) + more)[..k], acc) == Err(MalformedPacket)
  {
    hide PutU32, GetId;
    var s := ([SUB_ID] + PutU32(id) + more)[..k];
    assert s[0] == SUB_ID && s[1..] == (PutU32(id) + more)[..k - 1];
    NarrowIdRefused(id, more, k - 1);
  }

  /** A frame that holds more than it announces is cut. */
  lemma CutFrame(cfg: Settings, p: Packet, e: DecodeError)
    requires Encode(cfg, p).Ok? && Excess(Prepared(cfg, p)) >= 0
    requires var q := Prepared(cfg, p);
             var n := ContentSize(q, Limit(cfg));
             n <= VarInt.MAX_VARINT && BodyError(q, n).None? && n <= |PutBody(q, Limit(cfg))|
             && DecodePacket(FirstByte(q), PutBody(q, Limit(cfg))[..n]) == Err(e)
    ensures Frames.ParseStream(DecodePacket, 0, Encode(cfg, p).value) == Frames.Parsed([], Frames.Fault(e))
  {
    hide Encode, BodyError, ContentSize, PutBody, FirstByte, Prepared, DecodePacket, VarInt.Put, Excess;
    hide Frames.ParseStream;
    var q := Prepared(cfg, p);
    EncodeCases(cfg, p);
    Frames.AnnouncedFrame(DecodePacket, 0, FirstByte(q), ContentSize(q, Limit(cfg)), PutBody(q, Limit(cfg)));
  }

  // ----- A SUBSCRIBE with an identifier: stalled, refused or taken for another

  /** The four bytes of an identifier form a variable byte integer, and not zero. */
  predicate Passes(x: nz32) {
    var b := PutU32(x);
    b[0] >= 128 && b[1] >= 128 && b[2] >= 128 && b[3] < 128 && ReadAs(x) != 0
  }

  /** What they are then read as. */
  function ReadAs(x: nz32): nat {
    var b := PutU32(x);
    b[0] as int % 128 + b[1] as int % 128 * 128 + b[2] as int % 128 * 16384 + b[3] as int * 2097152
  }

  /** An identifier that is taken for another is itself beyond what the standard allows. */
  lemma ReadAsOther(x: nz32)
    requires Passes(x)
    ensures 1 <= ReadAs(x) <= VarInt.MAX_VARINT < x
  {
  }

  /** The reader takes exactly the bytes of an identifier that were announced, if and only if they pass. */
  lemma IdConsumed(x: nz32)
    ensures var src := PutU32(x)[..VarInt.Len(x) - 1];
            var r := GetId(src);
            && (r.Ok? && r.value.rest == [] <==> Passes(x))
            && (Passes(x) ==> r.value.value == VVar(ReadAs(x)))
  {
    var b := PutU32(x);
    var src := b[..VarInt.Len(x) - 1];
    VarInt.Unfold(src);
    assert x < 0x1000_0000 ==> b[0] < 16;
    assert x < 0x20_0000 ==> b[0] == 0;
  }

  /** The properties of a SUBSCRIBE packet that has an identifier and no user properties. */
  lemma SubscribeBlock(x: nz32)
    ensures var r := GetProps(SUBSCRIBE_TABLE, ([SUB_ID] + PutU32(x))[..VarInt.Len(x)], []);
            && (r.Ok? <==> Passes(x))
            && (r.Ok? ==> ReadAs(x) != 0 && r.value == [Prop(SUB_ID, VVar(ReadAs(x)))])
  {
    hide PutU32, GetId, ReadAs;
    var n := VarInt.Len(x);
    var s := ([SUB_ID] + PutU32(x))[..n];
    assert s[0] == SUB_ID && s[1..] == PutU32(x)[..n - 1];
    IdConsumed(x);
    var r := GetId(s[1..]);
    if r.Ok? {
      ValConsumes(KId, s[1..]);
      var acc := [Prop(SUB_ID, r.value.value)];
      assert [] + acc == acc && acc[0].id == SUB_ID;
      if r.value.rest == [] { NoProps(SUBSCRIBE_TABLE, acc); }
    }
  }

  lemma SubscribeAnnounced(s: Subscription)
    requires SubscribeOk(s) && s.subscriptionId.Some? && s.users == []
    ensures var n := SubscribePropLen(s);
            && n == VarInt.Len(s.subscriptionId.value) <= 5
            && SubscribeSize(s) <= |PutSubscribe(s)|
            && SubscribeSize(s) == 2 + |VarInt.Put(n)| + n + FiltersSize(s.filters)
  {
    hide FiltersSize, VarInt.Put;
    UsersSizeZero(s.users);
    VarInt.LenIsWritten(SubscribePropLen(s));
  }

  /** What the decoder makes of the announced part of such a packet. */
  lemma SubscribeIdRead(s: Subscription)
    requires SubscribeOk(s) && s.subscriptionId.Some? && s.users == []
    ensures var r := (SubscribeAnnounced(s); GetSubscribe(PutSubscribe(s)[..SubscribeSize(s)]));
            && (r.Ok? <==> Passes(s.subscriptionId.value))
            && (s.subscriptionId.value < 0x100_0000 ==> r == Err(MalformedPacket))
            && (r.Ok? ==> ReadAs(s.subscriptionId.value) != 0)
            && (r.Ok? ==> r == Ok(s.(subscriptionId := Some(ReadAs(s.subscriptionId.value)))))
  {
    hide GetNz16, PutU16, PutU32, PutFilters, GetFilters, VarInt.Put, VarInt.Get, GetProps;
    hide UsersSize, FiltersSize, Passes;
    SubscribeAnnounced(s);
    var x := s.subscriptionId.value;
    var n, rest := SubscribePropLen(s), SubscribeRest(s);
    var k := n + FiltersSize(s.filters);
    assert |PutU16(s.id)| == 2;
    assert PutSubscribe(s)[..SubscribeSize(s)] == PutU16(s.id) + (VarInt.Put(n) + rest[..k]);
    U16RoundTrip(s.id, VarInt.Put(n) + rest[..k]);
    VarInt.RoundTrip(n, rest[..k]);
    assert rest[..k][..n] == ([SUB_ID] + PutU32(x))[..n];
    SubscribeBlock(x);
    if x < 0x100_0000 { NarrowIdProp(SUBSCRIBE_TABLE, [], x, [], n); }
    assert [SUB_ID] + PutU32(x) + [] == [SUB_ID] + PutU32(x);
    if Passes(x) {
      assert n == 5 by { WideId(x); }
      assert rest[..k][n..] == PutFilters(s.filters);
      FiltersRoundTrip(s.filters);
      OnlyId(ReadAs(x));
    }
  }

  lemma WideId(x: nz32)
    requires Passes(x)
    ensures VarInt.Len(x) == 5
  {
  }

  lemma OnlyId(x: nz32)
    ensures var ps := [Prop(SUB_ID, VVar(x))]; IdsOf(ps) == [x] && UsersOf(ps) == []
  {
    var ps := [Prop(SUB_ID, VVar(x))];
    assert ps[1..] == [];
  }

  /** A frame whose body is as long as announced. */
  lemma WholeFrame(cfg: Settings, p: Packet, r: Result<Packet, DecodeError>)
    requires Encode(cfg, p).Ok? && Excess(Prepared(cfg, p)) == 0
    requires var q := Prepared(cfg, p);
             var n := ContentSize(q, Limit(cfg));
             n <= VarInt.MAX_VARINT && BodyError(q, n).None?
             && DecodePacket(FirstByte(q), PutBody(q, Limit(cfg))) == r
    ensures Frames.ParseStream(DecodePacket, 0, Encode(cfg, p).value) ==
            match r
            case Err(e) => Frames.Parsed([], Frames.Fault(e))
            case Ok(x) => Frames.Parsed([x], Frames.Residue([]))
  {
    hide Encode, BodyError, ContentSize, PutBody, FirstByte, Prepared, DecodePacket, VarInt.Put, Excess;
    hide Frames.ParseStream;
    var q := Prepared(cfg, p);
    EncodeCases(cfg, p);
    BodyLength(q, Limit(cfg));
    var n, body := ContentSize(q, Limit(cfg)), PutBody(q, Limit(cfg));
    Frames.AnnouncedFrame(DecodePacket, 0, FirstByte(q), n, body);
    assert body[..n] == body && body[n..] == [];
    EmptyStream(DecodePacket, 0);
  }

  /** The stream of such a packet on its own. */
  lemma SubscribeIdParsed(cfg: Settings, s: Subscription)
    requires Encode(cfg, Subscribe(s)).Ok? && Prepared(cfg, Subscribe(s)) == Subscribe(s)
    requires s.subscriptionId.Some? && s.users == []
    ensures var read := Frames.ParseStream(DecodePacket, 0, Encode(cfg, Subscribe(s)).value);
            var x := s.subscriptionId.value;
            if Passes(x) then
              ReadAs(x) != 0
              && read == Frames.Parsed([Subscribe(s.(subscriptionId := Some(ReadAs(x))))], Frames.Residue([]))
            else
              && read.packets == [] && read.ending.Fault?
              && (x < 0x100_0000 ==> read.ending.error == MalformedPacket)
  {
    hide Encode, VarInt.Put, VarInt.Len, GetSubscribe, PutSubscribe, SubscribeSize, UsersSize, Passes, ReadAs;
    hide Frames.ParseStream;
    var p := Subscribe(s);
    EncodeCases(cfg, p);
    BodyLength(p, Limit(cfg));
    SubscribeAnnounced(s);
    SubscribeIdRead(s);
    var r := GetSubscribe(PutSubscribe(s)[..SubscribeSize(s)]);
    if r.Err? {
      CutFrame(cfg, p, r.error);
    } else {
      assert Excess(p) == 0 by { WideId(s.subscriptionId.value); UsersSizeZero(s.users); }
      assert PutSubscribe(s)[..SubscribeSize(s)] == PutSubscribe(s);
      WholeFrame(cfg, p, Ok(Subscribe(r.value)));
    }
  }

  /** User properties outweigh what an identifier writes beyond its count. */
  lemma UsersOutweigh(s: Subscription)
    requires s.users != []
    ensures Excess(Subscribe(s)) < 0
  {
    hide VarInt.Len;
    UsersSizeBound(s.users);
    UserSizePositive(s.users[0]);
  }

  /**
    What the peer makes of a SUBSCRIBE with an identifier: with user properties it waits;
    without them it takes the packet for one with another identifier exactly if the four bytes
    of the identifier form a non-zero variable byte integer, and refuses it otherwise, as malformed
    if the identifier is below 2^24.
   */
  lemma SubscribeIdOutcome(cfg: Settings, s: Subscription)
    requires Encode(cfg, Subscribe(s)).Ok? && s.subscriptionId.Some?
    ensures var bytes := Encode(cfg, Subscribe(s)).value;
            var read := Frames.ParseStream(DecodePacket, 0, bytes);
            var x := s.subscriptionId.value;
            var q := Prepared(cfg, Subscribe(s)).subscription;
            if q.users != [] then
              read == Frames.Parsed([], Frames.Residue(bytes))
            else if Passes(x) then
              ReadAs(x) != 0
              && read == Frames.Parsed([Subscribe(q.(subscriptionId := Some(ReadAs(x))))], Frames.Residue([]))
            else
              && read.packets == [] && read.ending.Fault?
              && (x < 0x100_0000 ==> read.ending.error == MalformedPacket)
  {
    hide Encode, Excess, Passes, ReadAs, Frames.ParseStream, DecodePacket;
    var p := Subscribe(s);
    var q := Prepared(cfg, p).subscription;
    if q.users != [] {
      UsersOutweigh(q);
      NegativeExcessStalls(cfg, p);
    } else {
      PreparedTwice(cfg, p);
      SubscribeIdParsed(cfg, q);
    }
  }

  /** Stripping a packet twice is stripping it once. */
  lemma PreparedTwice(cfg: Settings, p: Packet)
    ensures Prepared(cfg, Prepared(cfg, p)) == Prepared(cfg, p)
    ensures Encode(cfg, Prepared(cfg, p)) == Encode(cfg, p)
  {
    hide ContentSize, BodyError, PutBody, FirstByte, VarInt.Put;
  }

  /** Up to its properties, a message is read back whatever follows. */
  lemma PublishHeadReads(p: Publication, tail: seq<byte>)
    requires Fits(p.topic) && PublishIdRule(p)
    ensures GetPublish(PublishFlags(p),
                       PutBytes(p.topic) + ((if p.packetId.Some? then PutU16(p.packetId.value) else []) + tail))
         == GetPublishTail(p.dup, p.retain, p.qos, p.packetId, p.topic, tail)
  {
    hide GetPublishTail, GetStr, GetNz16, PutBytes, PutU16;
    if p.qos == 0 {
      assert [] + tail == tail;
      StrRoundTrip(p.topic, tail);
    } else {
      StrRoundTrip(p.topic, PutU16(p.packetId.value) + tail);
      U16RoundTrip(p.packetId.value, tail);
    }
  }

  /** The properties of a message whose first subscription identifier is below 2^24. */
  lemma PublishPropsCut(p: Publication)
    requires PublishFits(p) && Ids(p) != [] && Ids(p)[0] < 0x100_0000
    requires PublishPropLen(p) <= |(PublishWritable(p); PutPublishProps(p))|
    ensures GetProps(PUBLISH_TABLE, (PublishWritable(p); PutPublishProps(p))[..PublishPropLen(p)], [])
         == Err(MalformedPacket)
  {
    hide SlotProps, PutProps, SlotsOk, SlotsSize, SlotsFit, PublishSlots, PutU32, GetProps, Suits, UsersSize;
    hide UserProps, VarInt.Len, PutIds, IdsSize, Legal, Writable;
    var sp := SlotProps(PublishSlots(p));
    PublishSlotsOk(p);
    PublishSlotsFit(p);
    PublishWritable(p);
    SlotPropsWritable(PUBLISH_TABLE, PublishSlots(p));
    SlotsLegal(PUBLISH_TABLE, PublishSlots(p));
    PublishRestSplit(p);
    IdsSizeFirst(Ids(p));
    var more := PutIds(Ids(p)[1..]) + PutProps(UserProps(p.users));
    var y := [SUB_ID] + PutU32(Ids(p)[0]) + more;
    var k := PublishPropLen(p) - SlotsSize(PublishSlots(p));
    assert PutPublishProps(p)[..PublishPropLen(p)] == PutProps(sp) + y[..k];
    PropsRoundTrip(PUBLISH_TABLE, [], sp, y[..k]);
    assert [] + sp == sp;
    NarrowIdProp(PUBLISH_TABLE, sp, Ids(p)[0], more, k);
  }

  /** How many of the bytes behind the announced length the frame holds. */
  function Framed(m: Publication): nat {
    PublishPropLen(m) + |m.payload|
  }

  /** The announced part of a message and what is written beyond it. */
  lemma PublishFrame(m: Publication)
    requires PublishOk(m) && Excess(Publish(m)) >= 0
    ensures PublishSize(m) <= |PublishBody(m)| && Framed(m) <= |PublishRest(m)|
    ensures PublishBody(m)[..PublishSize(m)]
         == PutBytes(m.topic) + ((if m.packetId.Some? then PutU16(m.packetId.value) else [])
                                 + (VarInt.Put(PublishPropLen(m)) + PublishRest(m)[..Framed(m)]))
    ensures PublishBody(m)[PublishSize(m)..] == PublishRest(m)[Framed(m)..]
  {
    hide PutBytes, PutU16, VarInt.Put, VarInt.Len, VarInt.FromSize, PublishRest, PublishBody;
    hide SlotsSize, UsersSize, IdsSize, PublishSlots, PublishPropLen, Excess;
    PublishLength(m);
    PublishShape(m);
    var n := PublishPropLen(m);
    VarInt.LenIsWritten(n);
    var ids := if m.packetId.Some? then PutU16(m.packetId.value) else [];
    assert |ids| == if m.qos == 0 then 0 else 2;
    FrameSplit(PutBytes(m.topic), ids, VarInt.Put(n), PublishRest(m), Framed(m));
  }

  lemma FrameSplit(t: seq<byte>, ids: seq<byte>, v: seq<byte>, rest: seq<byte>, k: nat)
    requires k <= |rest|
    ensures var body := t + (ids + (v + rest));
            var size := |t| + |ids| + |v| + k;
            size <= |body| && body[..size] == t + (ids + (v + rest[..k])) && body[size..] == rest[k..]
  {
  }

  /** The announced part of a message, as its decoder reads it. */
  lemma PublishFrameReads(m: Publication)
    requires PublishOk(m) && Excess(Publish(m)) >= 0
    ensures PublishSize(m) <= |PublishBody(m)| && Framed(m) <= |PublishRest(m)|
    ensures GetPublish(PublishFlags(m), PublishBody(m)[..PublishSize(m)])
         == match GetProps(PUBLISH_TABLE, PublishRest(m)[..PublishPropLen(m)], [])
            case Err(e) => Err(e)
            case Ok(ps) => Ok(BuildPublish(m.dup, m.retain, m.qos, m.packetId, m.topic, ps,
                                           PublishRest(m)[PublishPropLen(m)..Framed(m)]))
  {
    hide PutBytes, PutU16, VarInt.Put, VarInt.Get, VarInt.Len, GetPublish, GetProps, BuildPublish;
    hide PublishRest, PublishPropLen, PublishBody, PublishSize, Excess;
    PublishFrame(m);
    var n, rest, k := PublishPropLen(m), PublishRest(m), Framed(m);
    assert n <= VarInt.MAX_VARINT by { PropLenWithin(m); }
    PublishHeadReads(m, VarInt.Put(n) + rest[..k]);
    VarInt.RoundTrip(n, rest[..k]);
    assert rest[..k][..n] == rest[..n] && rest[..k][n..] == rest[n..k];
  }

  lemma PropLenWithin(m: Publication)
    requires PublishOk(m)
    ensures PublishPropLen(m) <= VarInt.MAX_VARINT
  {
    hide SlotsSize, UsersSize, IdsSize, PublishSlots, VarInt.Len;
  }

  /**
    What the peer makes of every PUBLISH: it waits if less is written than counted; otherwise it
    reads the announced part of the written properties, and refuses the packet with their error or
    takes it for the message they describe; what was written beyond is taken for the next packets.
   */
  lemma PublishOutcome(cfg: Settings, m: Publication)
    requires Encode(cfg, Publish(m)).Ok?
    ensures var bytes := Encode(cfg, Publish(m)).value;
            var read := Frames.ParseStream(DecodePacket, 0, bytes);
            PublishFits(m) &&
            if Excess(Publish(m)) < 0 then
              read == Frames.Parsed([], Frames.Residue(bytes))
            else
              Framed(m) <= |PublishRest(m)| &&
              match GetProps(PUBLISH_TABLE, PublishRest(m)[..PublishPropLen(m)], [])
              case Err(e) => read == Frames.Parsed([], Frames.Fault(e))
              case Ok(ps) =>
                read == Frames.Prepend([Publish(BuildPublish(m.dup, m.retain, m.qos, m.packetId, m.topic, ps,
                                                             PublishRest(m)[PublishPropLen(m)..Framed(m)]))],
                                       Frames.ParseStream(DecodePacket, 0, PublishRest(m)[Framed(m)..]))
  {
    hide Encode, Frames.ParseStream, VarInt.Put, VarInt.Len, GetPublish, GetProps, PublishBody, PublishSize;
    hide BuildPublish, PublishPropLen, PublishRest, DecodePacket, Excess;
    var p := Publish(m);
    EncodeCases(cfg, p);
    if Excess(p) < 0 {
      NegativeExcessStalls(cfg, p);
    } else {
      PublishFrame(m);
      PublishFrameReads(m);
      DecodesPublish(m, PublishBody(m)[..PublishSize(m)]);
      Frames.AnnouncedFrame(DecodePacket, 0, FirstByte(p), PublishSize(m), PublishBody(m));
    }
  }

  /** A PUBLISH whose first subscription identifier is below 2^24 is refused. */
  lemma PublishIdsFault(cfg: Settings, m: Publication)
    requires Encode(cfg, Publish(m)).Ok? && Ids(m) != [] && Ids(m)[0] < 0x100_0000 && Excess(Publish(m)) >= 0
    ensures Frames.ParseStream(DecodePacket, 0, Encode(cfg, Publish(m)).value)
         == Frames.Parsed([], Frames.Fault(MalformedPacket))
  {
    hide Encode, Frames.ParseStream, DecodePacket, GetProps, PutPublishProps, PublishSlots, SlotsSize;
    hide UsersSize, IdsSize;
    PublishOutcome(cfg, m);
    PublishWritable(m);
    var n := PublishPropLen(m);
    assert n <= |PutPublishProps(m)|;
    assert PublishRest(m)[..n] == PutPublishProps(m)[..n];
    PublishPropsCut(m);
  }

  // ----- A PUBLISH with one identifier and no user properties: stalled, refused or taken for another

  /** The property that three bytes hold exactly, if they hold one. */
  function PropIn(t: seq<byte>): Option<Prop>
    requires |t| == 3
  {
    var word := t[1] as int * 256 + t[2];
    if t[0] == TOPIC_ALIAS && word != 0 then Some(Prop(TOPIC_ALIAS, VU16(word)))
    else if t[0] == SUB_ID && t[1] >= 128 && t[2] < 128 && t[1] as int % 128 + t[2] as int * 128 != 0 then
      Some(Prop(SUB_ID, VVar(t[1] as int % 128 + t[2] as int * 128)))
    else if (t[0] == CONTENT_TYPE || t[0] == RESP_TOPIC) && word == 0 then Some(Prop(t[0], VStr([])))
    else if t[0] == CORR_DATA && word == 0 then Some(Prop(CORR_DATA, VBin([])))
    else None
  }

  /** A single byte is never a property. */
  lemma ByteRefused(t: seq<byte>, acc: seq<Prop>)
    requires |t| == 1
    ensures GetProps(PUBLISH_TABLE, t, acc).Err?
  {
    hide Utf8;
    VarInt.Unfold(t[1..]);
  }

  lemma WordString(w: seq<byte>)
    requires |w| == 2
    ensures var n := w[0] as int * 256 + w[1];
            && GetBytes(w) == (if n == 0 then Ok(Read([], [])) else Err(InvalidLength))
            && GetStr(w) == (if n == 0 then Ok(Read([], [])) else Err(InvalidLength))
  {
    hide Utf8;
    assert w[2..] == [];
    assert Utf8([]) by { EmptyText(); }
  }

  lemma EmptyText()
    ensures Utf8([])
  {
  }

  /** The value of the property whose type byte comes first. */
  lemma ValueIn(t: seq<byte>)
    requires |t| == 3 && t[0] in PUBLISH_TABLE
    ensures var r := GetVal(PUBLISH_TABLE[t[0]], t[1..]);
            && (r.Ok? && r.value.rest == [] <==> PropIn(t).Some?)
            && (PropIn(t).Some? ==> PropIn(t).value == Prop(t[0], r.value.value))
            && (r.Ok? ==> |r.value.rest| <= 1)
  {
    hide Utf8, GetBytes, GetStr;
    var w := t[1..];
    assert w[0] == t[1] && w[1] == t[2] && w[2..] == [];
    VarInt.Unfold(w);
    WordString(w);
  }

  /** What a reader makes of three last bytes behind the properties it has read. */
  lemma ThreeBytes(t: seq<byte>, acc: seq<Prop>)
    requires |t| == 3
    ensures var r := GetProps(PUBLISH_TABLE, t, acc);
            var p := PropIn(t);
            && (r.Ok? <==> p.Some? && (t[0] == SUB_ID || !Has(acc, t[0])))
            && (r.Ok? ==> r.value == acc + [p.value])
  {
    hide GetVal, PropIn;
    PropInTable(t);
    if t[0] in PUBLISH_TABLE {
      ValueIn(t);
      var r := GetVal(PUBLISH_TABLE[t[0]], t[1..]);
      if r.Ok? {
        var acc' := acc + [Prop(t[0], r.value.value)];
        if r.value.rest == [] { NoProps(PUBLISH_TABLE, acc'); } else { ByteRefused(r.value.rest, acc'); }
      }
    }
  }

  lemma PropInTable(t: seq<byte>)
    requires |t| == 3
    ensures PropIn(t).Some? ==> t[0] in PUBLISH_TABLE && (Repeats(PUBLISH_TABLE[t[0]]) <==> t[0] == SUB_ID)
  {
  }

  /** The first byte of such an identifier is read as the whole, the other three as a property. */
  lemma WideIdProps(x: nz32, acc: seq<Prop>)
    requires 0x100_0000 <= x < 0x1000_0000
    ensures 1 <= PutU32(x)[0] < 16
    ensures GetProps(PUBLISH_TABLE, [SUB_ID] + PutU32(x), acc)
         == GetProps(PUBLISH_TABLE, PutU32(x)[1..], acc + [Prop(SUB_ID, VVar(PutU32(x)[0]))])
  {
    var b := PutU32(x);
    var s := [SUB_ID] + b;
    assert s[0] == SUB_ID && s[1..] == b;
    assert 1 <= b[0] < 16;
    VarInt.Unfold(b);
  }

  /** One identifier, no user properties. */
  predicate OneId(m: Publication) {
    |Ids(m)| == 1 && m.users == []
  }

  lemma OneIdProps(m: Publication)
    requires PublishFits(m) && OneId(m)
    ensures Writable(SlotProps(PublishSlots(m))) && Writable(UserProps(m.users))
    ensures PutPublishProps(m) == PutProps(SlotProps(PublishSlots(m))) + ([SUB_ID] + PutU32(Ids(m)[0]))
    ensures IdsSize(Ids(m)) == 1 + VarInt.Len(Ids(m)[0])
    ensures UsersSize(m.users) == 0
  {
    hide SlotProps, PutProps, PublishSlots, PutU32, Writable;
    PublishWritable(m);
    PublishRestSplit(m);
    NoIds();
    assert Ids(m)[1..] == [] && UserProps(m.users) == [];
    var y := [SUB_ID] + PutU32(Ids(m)[0]);
    assert PutProps(UserProps([])) == [] by { NoUserBytes(); }
    assert y + ([] + []) == y;
  }

  lemma NoUserBytes()
    ensures Writable(UserProps([])) && PutProps(UserProps([])) == []
  {
  }

  /** What a reader finds in the properties of a message whose identifier is in 2^24 .. 2^28 - 1. */
  lemma OneIdRead(m: Publication)
    requires PublishFits(m) && OneId(m) && 0x100_0000 <= Ids(m)[0] < 0x1000_0000
    ensures var x := Ids(m)[0];
            var sp := SlotProps(PublishSlots(m));
            var r := (OneIdProps(m); GetProps(PUBLISH_TABLE, PutPublishProps(m), []));
            && 1 <= PutU32(x)[0]
            && (r.Ok? <==> MisreadAs(m).Some?)
            && (r.Ok? ==> r.value == sp + [Prop(SUB_ID, VVar(PutU32(x)[0]))] + [MisreadAs(m).value])
  {
    hide SlotProps, PutProps, PublishSlots, PutU32, GetProps, SlotsOk, Legal, Writable, PropIn;
    var x := Ids(m)[0];
    var sp := SlotProps(PublishSlots(m));
    OneIdProps(m);
    PublishSlotsOk(m);
    SlotsLegal(PUBLISH_TABLE, PublishSlots(m));
    PropsRoundTrip(PUBLISH_TABLE, [], sp, [SUB_ID] + PutU32(x));
    assert [] + sp == sp;
    WideIdProps(x, sp);
    var first := Prop(SUB_ID, VVar(PutU32(x)[0]));
    ThreeBytes(PutU32(x)[1..], sp + [first]);
    HasAppend(sp, first, PutU32(x)[1]);
  }

  lemma HasAppend(ps: seq<Prop>, p: Prop, id: byte)
    ensures Has(ps + [p], id) <==> Has(ps, id) || p.id == id
  {
    if Has(ps, id) {
      var i :| 0 <= i < |ps| && ps[i].id == id;
      assert (ps + [p])[i].id == id;
    }
    assert (ps + [p])[|ps|] == p;
  }

  /**
    The property that the last three bytes of the identifier are taken for: one that they hold
    exactly and that the message does not have already.
   */
  function MisreadAs(m: Publication): Option<Prop>
    requires Ids(m) != []
  {
    var t := PutU32(Ids(m)[0])[1..];
    if PropIn(t).Some? && (t[0] == SUB_ID || !Has(SlotProps(PublishSlots(m)), t[0])) then PropIn(t) else None
  }

  /** The message that the peer sees instead. */
  function Instead(m: Publication): Publication
    requires Ids(m) != [] && Ids(m)[0] >= 0x100_0000 && MisreadAs(m).Some?
  {
    BuildPublish(m.dup, m.retain, m.qos, m.packetId, m.topic,
                 SlotProps(PublishSlots(m)) + [Prop(SUB_ID, VVar(PutU32(Ids(m)[0])[0]))] + [MisreadAs(m).value],
                 m.payload)
  }

  lemma OneIdDecodes(m: Publication)
    requires PublishOk(m) && OneId(m) && 0x100_0000 <= Ids(m)[0] < 0x1000_0000
    ensures var r := GetPublish(PublishFlags(m), PublishBody(m));
            (r.Ok? <==> MisreadAs(m).Some?) && (r.Ok? ==> r == Ok(Instead(m)))
  {
    hide GetPublish, PublishBody, GetProps, PutPublishProps, SlotProps, PublishSlots, PutU32, VarInt.Put, VarInt.Get;
    hide MisreadAs, BuildPublish, SlotsSize, VarInt.Len, PutProps;
    PublishReads(m);
    PublishShape(m);
    OneIdProps(m);
    OneIdRead(m);
    PublishWritable(m);
    var n, rest := PublishPropLen(m), PublishRest(m);
    VarInt.RoundTrip(n, rest);
    assert n == |PutPublishProps(m)| by { LenOfWide(Ids(m)[0]); }
    assert rest[..n] == PutPublishProps(m) && rest[n..] == m.payload;
  }

  lemma LenOfWide(x: nz32)
    ensures 0x100_0000 <= x < 0x1000_0000 ==> VarInt.Len(x) == 4
    ensures x >= 0x1000_0000 ==> VarInt.Len(x) == 5
  {
  }

  /**
    What the peer makes of a PUBLISH with one identifier and no user properties: it waits for an
    identifier from 2^28 on and refuses one below 2^24; one in between it takes for another
    message exactly if the last three bytes of the identifier hold a property that the message
    does not have, and refuses it otherwise.
   */
  lemma PublishIdOutcome(cfg: Settings, m: Publication)
    requires Encode(cfg, Publish(m)).Ok? && OneId(m)
    ensures var bytes := Encode(cfg, Publish(m)).value;
            var read := Frames.ParseStream(DecodePacket, 0, bytes);
            var x := Ids(m)[0];
            if x >= 0x1000_0000 then
              read == Frames.Parsed([], Frames.Residue(bytes))
            else if x >= 0x100_0000 && MisreadAs(m).Some? then
              read == Frames.Parsed([Publish(Instead(m))], Frames.Residue([]))
            else
              read.packets == [] && read.ending.Fault?
  {
    hide Encode, Frames.ParseStream, VarInt.Put, VarInt.Len, GetPublish, PublishBody, PublishSize, IdsSize;
    hide MisreadAs, Instead;
    var x := Ids(m)[0];
    EncodeCases(cfg, Publish(m));
    OneIdProps(m);
    LenOfWide(x);
    if x >= 0x1000_0000 {
      NegativeExcessStalls(cfg, Publish(m));
    } else if x >= 0x100_0000 {
      OneIdDecodes(m);
      DecodesPublish(m, PublishBody(m));
      var r := GetPublish(PublishFlags(m), PublishBody(m));
      WholeFrame(cfg, Publish(m), if r.Ok? then Ok(Publish(r.value)) else Err(r.error));
    } else {
      NarrowLen(x);
      PublishIdsFault(cfg, m);
    }
  }

  lemma NarrowLen(x: nz32)
    requires x < 0x100_0000
    ensures VarInt.Len(x) <= 4
  {
  }

  /** The message seen instead has another identifier. */
  lemma InsteadDiffers(m: Publication)
    requires OneId(m) && Ids(m)[0] >= 0x100_0000 && MisreadAs(m).Some?
    ensures Instead(m) != m
    ensures Instead(m).subscriptionIds.Some? && Instead(m).subscriptionIds.value[0] == Ids(m)[0] / 0x100_0000
  {
    hide MisreadAs, PublishSlots, SlotProps, Find, UsersOf;
    var sp := SlotProps(PublishSlots(m));
    var first := Prop(SUB_ID, VVar(PutU32(Ids(m)[0])[0]));
    PublishSlotsOk(m);
    SlotsNotVar(PUBLISH_TABLE, PublishSlots(m));
    IdsOfLast(sp, first);
    IdsOfPrefix(sp + [first], sp + [first] + [MisreadAs(m).value]);
  }

  // ----- Inputs

  /** A codec without limits. */
  const FREE := Settings(false, 0)

  /** The peer reads nothing and waits. */
  ghost predicate Stalled(p: Packet) {
    && Encode(FREE, p).Ok?
    && Frames.ParseStream(DecodePacket, 0, Encode(FREE, p).value)
       == Frames.Parsed([], Frames.Residue(Encode(FREE, p).value))
  }

  /** The peer refuses the packet as malformed. */
  ghost predicate Refused(p: Packet) {
    && Encode(FREE, p).Ok?
    && Frames.ParseStream(DecodePacket, 0, Encode(FREE, p).value) == Frames.Parsed([], Frames.Fault(MalformedPacket))
  }

  /** The peer reads another packet and nothing else. */
  ghost predicate TakenFor(p: Packet, q: Packet) {
    && Encode(FREE, p).Ok?
    && Frames.ParseStream(DecodePacket, 0, Encode(FREE, p).value) == Frames.Parsed([q], Frames.Residue([]))
  }

  /** One user property whose name and value have one byte each. */
  predicate OneUser(users: seq<UserProp>) {
    |users| == 1 && |users[0].key| == 1 && |users[0].value| == 1
  }

  lemma OneUserSize(users: seq<UserProp>)
    requires OneUser(users)
    ensures UsersSize(users) == 7
  {
    assert users[1..] == [];
  }

  /** One filter of one byte, such as "a". */
  predicate OneFilter(fs: seq<V5Packets.Filter>) {
    |fs| == 1 && |fs[0].topic| == 1
  }

  lemma SmallSubscribe(s: Subscription)
    requires OneFilter(s.filters) && (s.users == [] || OneUser(s.users))
    ensures Encode(FREE, Subscribe(s)).Ok?
  {
    hide VarInt.Put, PutSubscribe;
    if s.users != [] { OneUserSize(s.users); }
    assert s.filters[1..] == [];
    assert FiltersSize(s.filters) == 4;
    assert SubscribeSize(s) <= 20;
  }

  /** A subscription to one filter with identifier 1 is refused. */
  lemma SubscribeWithId(s: Subscription)
    requires s.subscriptionId == Some(1) && s.users == [] && OneFilter(s.filters)
    ensures Refused(Subscribe(s))
  {
    hide Encode, DecodePacket, Frames.ParseStream;
    SmallSubscribe(s);
    assert !Passes(1);
    SubscribeIdOutcome(FREE, s);
  }

  /** A subscription to one filter with one user property keeps the peer waiting. */
  lemma SubscribeWithUser(s: Subscription)
    requires s.subscriptionId.None? && OneUser(s.users) && OneFilter(s.filters)
    ensures Stalled(Subscribe(s))
  {
    hide Encode, DecodePacket, Frames.ParseStream;
    OneUserSize(s.users);
    SmallSubscribe(s);
    NegativeExcessStalls(FREE, Subscribe(s));
  }

  /** So does an UNSUBSCRIBE from one filter with one user property. */
  lemma UnsubscribeWithUser(u: Unsubscription)
    requires OneUser(u.users) && |u.topics| == 1 && |u.topics[0]| == 1
    ensures Stalled(Unsubscribe(u))
  {
    hide DecodePacket, Frames.ParseStream, VarInt.Put, PutUnsubscribe;
    OneUserSize(u.users);
    assert u.topics[1..] == [];
    assert TopicsSize(u.topics) == 3;
    assert VarInt.Len(UsersSize(u.users)) == 1;
    NegativeExcessStalls(FREE, Unsubscribe(u));
  }

  /** An empty message to "a" with subscription identifier 1 is refused. */
  lemma PublishWithId(m: Publication)
    requires m == Plain([], Some([1]))
    ensures Refused(Publish(m))
  {
    hide Encode, DecodePacket, Frames.ParseStream, PublishSlots, SlotsSize;
    PlainSlots([], m.subscriptionIds);
    var ids: seq<nz32> := [1];
    assert ids[1..] == [] && IdsSize(Ids(m)) == 2;
    PlainEncodes(FREE, m);
    PublishIdsFault(FREE, m);
  }

  /** An empty message to "a" with identifier 0x01230005 is read as one with identifier 1 and topic alias 5. */
  lemma PublishMisread(m: Publication)
    requires m == Plain([], Some([0x0123_0005]))
    ensures TakenFor(Publish(m), Publish(Plain([], Some([1])).(topicAlias := Some(5))))
  {
    hide Encode, DecodePacket, Frames.ParseStream, PublishSlots, SlotsSize;
    PlainSlots([], m.subscriptionIds);
    var ids: seq<nz32> := [0x0123_0005];
    assert ids[1..] == [] && IdsSize(Ids(m)) == 5;
    PlainEncodes(FREE, m);
    PublishIdOutcome(FREE, m);
    MisreadIsAlias(m);
  }

  /** What a reader finds in an identifier and a topic alias. */
  lemma IdAndAlias(ps: seq<Prop>, id: byte)
    requires ps == [Prop(SUB_ID, VVar(1)), Prop(TOPIC_ALIAS, VU16(5))]
    ensures UsersOf(ps) == [] && IdsOf(ps) == [1]
    ensures id != SUB_ID ==> Find(ps, id) == if id == TOPIC_ALIAS then Some(VU16(5)) else None
  {
    var tail := ps[1..];
    assert tail == [Prop(TOPIC_ALIAS, VU16(5))] && tail[1..] == [];
    assert UsersOf(tail) == [] && IdsOf(tail) == [];
    assert Find(tail, id) == if id == TOPIC_ALIAS then Some(VU16(5)) else None;
  }

  lemma MisreadProp(m: Publication)
    requires m == Plain([], Some([0x0123_0005]))
    ensures PutU32(0x0123_0005) == [1, 0x23, 0, 5] && SlotProps(PublishSlots(m)) == []
    ensures MisreadAs(m) == Some(Prop(TOPIC_ALIAS, VU16(5)))
  {
    hide PublishSlots, SlotProps;
    NoSlotProps(m);
    var b := PutU32(0x0123_0005);
    assert b[1..] == [b[1], b[2], b[3]];
  }

  lemma MisreadIsAlias(m: Publication)
    requires m == Plain([], Some([0x0123_0005]))
    ensures MisreadAs(m).Some? && Instead(m) == Plain([], Some([1])).(topicAlias := Some(5))
  {
    hide PublishSlots, SlotProps, PutU32, MisreadAs, Find, UsersOf, IdsOf, Utf8;
    MisreadProp(m);
    var ps := [Prop(SUB_ID, VVar(1)), Prop(TOPIC_ALIAS, VU16(5))];
    assert SlotProps(PublishSlots(m)) + [Prop(SUB_ID, VVar(PutU32(Ids(m)[0])[0]))] + [MisreadAs(m).value] == ps;
    IdAndAlias(ps, TOPIC_ALIAS);
    IdAndAlias(ps, CORR_DATA);
    IdAndAlias(ps, MSG_EXPIRY_INT);
    IdAndAlias(ps, CONTENT_TYPE);
    IdAndAlias(ps, UTF8_PAYLOAD);
    IdAndAlias(ps, RESP_TOPIC);
  }

  lemma NoSlotProps(m: Publication)
    requires m == Plain(m.payload, m.subscriptionIds)
    ensures SlotProps(PublishSlots(m)) == []
  {
    PlainSlots(m.payload, m.subscriptionIds);
    PublishSlotsOk(m);
    PublishSlotsFit(m);
    SlotPropsWritable(PUBLISH_TABLE, PublishSlots(m));
  }

  /** A subscription to one filter with identifier 0x80808001 is read as one with identifier 2097152. */
  lemma SubscribeMisread(s: Subscription)
    requires s.subscriptionId == Some(0x8080_8001) && s.users == [] && OneFilter(s.filters)
    ensures TakenFor(Subscribe(s), Subscribe(s.(subscriptionId := Some(2097152))))
  {
    hide Encode, DecodePacket, Frames.ParseStream;
    SmallSubscribe(s);
    assert PutU32(0x8080_8001) == [0x80, 0x80, 0x80, 1];
    assert Passes(0x8080_8001) && ReadAs(0x8080_8001) == 2097152;
    SubscribeIdOutcome(FREE, s);
  }

  /** A clean CONNECT whose will is delayed by five seconds. */
  function DelayedWill(): Connection {
    Connection(true, 0, None, None, None, true, false, None, 0, [], None,
               Some(Will(0, false, Letter(), [], Some(5), None, None, None, [], None, None)), [], None, None)
  }

  lemma DelayedWillProps(w: Will)
    requires w == DelayedWill().will.value
    ensures WillPropLen(w) == 5
  {
    hide Utf8;
    var slots := WillSlots(w);
    assert slots[0].val == Some(VU32(5));
    assert slots[1..] == [slots[1], slots[2], slots[3], slots[4], slots[5]];
    SlotsSizeZero(slots[1..]);
  }

  lemma DelayedWillPlain(c: Connection)
    requires c == DelayedWill()
    ensures ConnectPropLen(c) == 0
  {
    hide Utf8;
    SlotsSizeZero(ConnectSlots(c));
    UsersSizeZero(c.users);
  }

  lemma DelayedWillSize(c: Connection)
    requires c == DelayedWill()
    ensures ConnectFits(c) && ConnectSize(c) == 24
  {
    hide Utf8, WillPropLen, ConnectPropLen;
    DelayedWillProps(c.will.value);
    DelayedWillPlain(c);
  }

  lemma ConnectEncodes(c: Connection)
    requires ConnectFits(c) && ConnectSize(c) <= VarInt.MAX_VARINT
    ensures Encode(FREE, Connect(c)).Ok? && Prepared(FREE, Connect(c)) == Connect(c)
  {
    hide ConnectSize, ConnectBody, ConnectFits, VarInt.Put;
  }

  /** It keeps the server waiting. */
  lemma ConnectWithWillProperty(c: Connection)
    requires c == DelayedWill()
    ensures Stalled(Connect(c))
  {
    hide Encode, DecodePacket, Frames.ParseStream, ConnectSize, WillPropLen, ConnectFits, Utf8;
    DelayedWillSize(c);
    DelayedWillProps(c.will.value);
    ConnectEncodes(c);
    NegativeExcessStalls(FREE, Connect(c));
  }
}
