/**
  Bytes on the wire against the maximum packet size that the peer announced. The codec compares
  its limit with the content alone (src/v5/codec/codec.rs:189-194); the fixed header comes on top,
  and some packets write more or fewer bytes than their size pass counts.
 */
module V5Wire {
  import opened Wrappers
  import opened Words
  import opened Bytes
  import opened Props
  import opened LimitedProps
  import opened PropBlocks
  import opened V5Packets
  import opened V5Limited
  import opened V5LimitedRoundTrip
  import opened V5Plain
  import opened V5PlainRoundTrip
  import opened V5Codec
  import opened V5Streams
  import VarInt

  // ----- How many bytes the write pass writes

  /** Bytes written beyond the counted content; negative if some of the content is never written. */
  function Excess(q: Packet): int {
    match q
    case Publish(m) => 5 * |Ids(m)| - IdsSize(Ids(m))
    case Subscribe(s) =>
      (if s.subscriptionId.Some? then 5 - VarInt.Len(s.subscriptionId.value) else 0) - UsersSize(s.users)
    case Unsubscribe(u) => 0 - UsersSize(u.users)
    case Connect(c) => if c.will.Some? then 0 - WillPropLen(c.will.value) else 0
    case _ => 0
  }

  lemma PublishLength(m: Publication)
    requires PublishOk(m)
    ensures |PublishBody(m)| == PublishSize(m) + Excess(Publish(m))
  {
    hide SlotsSize, UsersSize, IdsSize, PutPublishProps, VarInt.Put, VarInt.Len, PublishSlots;
    PublishWritable(m);
    PublishShape(m);
    VarInt.LenIsWritten(PublishPropLen(m));
  }

  lemma SubscribeLength(s: Subscription)
    requires SubscribeOk(s)
    ensures |PutSubscribe(s)| == SubscribeSize(s) + Excess(Subscribe(s))
  {
    hide VarInt.Put, VarInt.Len, UsersSize, FiltersSize;
    VarInt.LenIsWritten(SubscribePropLen(s));
  }

  lemma UnsubscribeLength(u: Unsubscription)
    requires UnsubscribeOk(u)
    ensures |PutUnsubscribe(u)| == UnsubscribeSize(u) + Excess(Unsubscribe(u))
  {
    hide VarInt.Put, VarInt.Len, UsersSize, TopicsSize;
    VarInt.LenIsWritten(UsersSize(u.users));
  }

  lemma ConnectLength(c: Connection)
    requires ConnectOk(c)
    ensures |ConnectBody(c)| == ConnectSize(c) + Excess(Connect(c))
  {
    hide VarInt.Put, VarInt.Len, WillPropLen, ConnectPropLen, ConnectSlots, BlockProps;
    ConnectWritable(c);
    VarInt.LenIsWritten(ConnectPropLen(c));
    if c.will.Some? { VarInt.LenIsWritten(WillPropLen(c.will.value)); }
  }

  /** The write pass writes the counted content and the excess. */
  lemma BodyLength(q: Packet, limit: u32)
    requires ContentSize(q, limit) <= VarInt.MAX_VARINT && BodyError(q, ContentSize(q, limit)).None?
    ensures |PutBody(q, limit)| == ContentSize(q, limit) + Excess(q)
  {
    hide LimitedSize, LayoutOf, Writes, PutLimited, ConnectSize, PublishSize, SubscribeSize, UnsubscribeSize;
    hide ConnectBody, PublishBody, PutSubscribe, PutUnsubscribe, UsersSize, IdsSize, WillPropLen;
    if IsLimited(q) {
      WritesIff(q, limit);
      var block := LayoutTwoPass(q, limit);
    } else {
      match q
      case Connect(c) => ConnectLength(c);
      case Publish(m) => PublishLength(m);
      case Subscribe(s) => SubscribeLength(s);
      case Unsubscribe(u) => UnsubscribeLength(u);
      case _ =>
    }
  }

  /** The length of every encoding. */
  lemma WireLength(cfg: Settings, p: Packet)
    requires Encode(cfg, p).Ok?
    ensures var q := Prepared(cfg, p);
            var size := ContentSize(q, Limit(cfg));
            size <= Limit(cfg) && |Encode(cfg, p).value| == 1 + VarInt.Len(size) + size + Excess(q)
  {
    hide Encode, BodyError, ContentSize, PutBody, FirstByte, Prepared, VarInt.Put, VarInt.Len, Excess;
    EncodeCases(cfg, p);
    BodyLength(Prepared(cfg, p), Limit(cfg));
    VarInt.LenIsWritten(ContentSize(Prepared(cfg, p), Limit(cfg)));
  }

  /** A packet that is read back has no excess. */
  lemma SurvivorsExact(q: Packet)
    requires Survives(q)
    ensures Excess(q) == 0
  {
    hide WillPropLen;
    if q.Publish? { NoIds(); }
    if q.Subscribe? { UsersSizeZero(q.subscription.users); }
    if q.Unsubscribe? { UsersSizeZero(q.unsubscription.users); }
  }

  /** For packets that survive, the size pass counts exactly the bytes that follow the fixed header. */
  lemma SizeIsWritten(cfg: Settings, p: Packet)
    requires Encode(cfg, p).Ok? && Survives(Prepared(cfg, p))
    ensures var size := ContentSize(Prepared(cfg, p), Limit(cfg));
            size <= Limit(cfg) && |Encode(cfg, p).value| == 1 + VarInt.Len(size) + size
  {
    hide Encode, ContentSize, Prepared, VarInt.Len, Excess, Survives;
    WireLength(cfg, p);
    SurvivorsExact(Prepared(cfg, p));
  }

  // ----- The peer's maximum packet size

  /** A non-zero limit is kept on the wire exactly if the content leaves room for the fixed header. */
  lemma WithinLimitIff(cfg: Settings, p: Packet)
    requires Encode(cfg, p).Ok? && cfg.maxOut != 0 && Survives(Prepared(cfg, p))
    ensures var size := ContentSize(Prepared(cfg, p), Limit(cfg));
            |Encode(cfg, p).value| <= cfg.maxOut <==> 1 + VarInt.Len(size) + size <= cfg.maxOut
  {
    hide Encode, ContentSize, Prepared, VarInt.Len, Survives;
    SizeIsWritten(cfg, p);
  }

  /**
    A maximum above five that is set through the builder: kept exactly if the excess fits what the
    content leaves, and so by every packet that writes no more than it counts.
   */
  lemma BuilderLimitIff(flag: bool, n: u32, p: Packet)
    requires n > 5 && Encode(Settings(flag, BuilderLimit(n)), p).Ok?
    ensures var cfg := Settings(flag, BuilderLimit(n));
            var size := ContentSize(Prepared(cfg, p), Limit(cfg));
            && (|Encode(cfg, p).value| <= n <==> Excess(Prepared(cfg, p)) <= n - size - 1 - VarInt.Len(size))
            && (Excess(Prepared(cfg, p)) <= 0 ==> |Encode(cfg, p).value| <= n)
  {
    hide Encode, ContentSize, Prepared, VarInt.Len, Excess;
    var cfg := Settings(flag, BuilderLimit(n));
    WireLength(cfg, p);
    EncodeCases(cfg, p);
    VarInt.LenWithin(ContentSize(Prepared(cfg, p), Limit(cfg)));
  }

  /** A maximum set as it is, for every packet. */
  lemma RawLimitIff(flag: bool, n: u32, p: Packet)
    requires n != 0 && Encode(Settings(flag, n), p).Ok?
    ensures var size := ContentSize(Prepared(Settings(flag, n), p), n);
            |Encode(Settings(flag, n), p).value| <= n
            <==> Excess(Prepared(Settings(flag, n), p)) <= n - size - 1 - VarInt.Len(size)
  {
    hide Encode, ContentSize, Prepared, VarInt.Len, Excess;
    WireLength(Settings(flag, n), p);
  }

  /** A maximum set as it is: exceeded exactly by content that lies within the fixed header of it. */
  lemma RawLimitExceededIff(flag: bool, n: u32, p: Packet)
    requires n != 0 && Encode(Settings(flag, n), p).Ok? && Survives(Prepared(Settings(flag, n), p))
    ensures var size := ContentSize(Prepared(Settings(flag, n), p), n);
            |Encode(Settings(flag, n), p).value| > n <==> n - 1 - VarInt.Len(size) < size <= n
  {
    hide Encode, ContentSize, Prepared, VarInt.Len, Excess, Survives;
    WireLength(Settings(flag, n), p);
    WithinLimitIff(Settings(flag, n), p);
  }

  /** Up to five the two ways of setting the maximum are the same, so there the builder's is exceeded as well. */
  lemma SettersAgreeIff(n: u32)
    ensures BuilderLimit(n) == n <==> n <= 5
  {
  }

  // ----- Inputs at which the maximum is exceeded

  function Letter(): Str {
    assert Utf8From([97], 1);
    [97]
  }

  /** A message of quality 0 to topic "a". */
  function Plain(payload: seq<byte>, ids: Option<seq<nz32>>): Publication {
    Publication(false, false, 0, None, Letter(), payload, None, None, None, None, [], None, None, ids)
  }

  lemma PlainSlots(payload: seq<byte>, ids: Option<seq<nz32>>)
    ensures SlotsSize(PublishSlots(Plain(payload, ids))) == 0
    ensures PublishFits(Plain(payload, ids)) && UsersSize(Plain(payload, ids).users) == 0
  {
    SlotsSizeZero(PublishSlots(Plain(payload, ids)));
  }

  lemma PlainEncodes(cfg: Settings, m: Publication)
    requires !cfg.noProblemInfo && PublishOk(m) && PublishSize(m) <= Limit(cfg)
    ensures Encode(cfg, Publish(m)).Ok? && Prepared(cfg, Publish(m)) == Publish(m)
    ensures ContentSize(Publish(m), Limit(cfg)) == PublishSize(m)
  {
    hide PublishSize, VarInt.Put, PublishBody;
  }

  /** With a raw maximum of 20 bytes, sixteen bytes to topic "a" go out as 22 bytes. */
  lemma RawLimitExceeded(m: Publication)
    requires m == Plain(m.payload, None) && |m.payload| == 16
    ensures Encode(Settings(false, 20), Publish(m)).Ok? && |Encode(Settings(false, 20), Publish(m)).value| == 22
  {
    hide Encode, Prepared, ContentSize;
    PlainSlots(m.payload, None);
    NoIds();
    assert PublishSize(m) == 20;
    PlainEncodes(Settings(false, 20), m);
    WireLength(Settings(false, 20), Publish(m));
  }

  /** Two subscription identifiers take even a builder's maximum of 13 bytes to 16. */
  lemma BuilderLimitExceeded(m: Publication)
    requires m == Plain([], Some([1, 1]))
    ensures var cfg := Settings(false, BuilderLimit(13));
            Encode(cfg, Publish(m)).Ok? && |Encode(cfg, Publish(m)).value| == 16
  {
    hide Encode, ContentSize, PublishSlots, SlotsSize, UsersSize, PublishFits, Utf8;
    var cfg := Settings(false, BuilderLimit(13));
    PlainSlots([], m.subscriptionIds);
    var ids: seq<nz32> := [1, 1];
    assert ids[1..] == [1] && ids[1..][1..] == [];
    assert IdsSize(Ids(m)) == 4;
    assert PublishSize(m) == 8;
    PlainEncodes(cfg, m);
    WireLength(cfg, Publish(m));
  }

  /** A PUBACK of identifier 1. */
  function FirstAck(users: seq<UserProp>): Packet {
    PublishAck(PubAck(1, 0, users, None))
  }

  lemma AckSizes(users: seq<UserProp>)
    ensures Bare(FirstAck(users)) == 4 && Mandatory(FirstAck(users)) == 7
    ensures Room(FirstAck(users), 6) == U32 - 5
  {
  }

  /** Under a limit of six a bare PUBACK goes out, but with a user property it is refused instead of cut. */
  lemma TightAckRefused()
    ensures Encode(Settings(false, 6), FirstAck([])).Ok?
    ensures Encode(Settings(false, 6), FirstAck([UserProp(Letter(), Letter())])) == Err(EncInvalidLength)
  {
    hide LimitedSize, Room, Writes, PutLimited, VarInt.Put;
    var cfg := Settings(false, 6);
    AckSizes([]);
    WithinLimitedIff(FirstAck([]), 6);
    WritesIff(FirstAck([]), 6);
    var u := UserProp(Letter(), Letter());
    AckSizes([u]);
    WithinLimitedIff(FirstAck([u]), 6);
    assert KeptCount([u], Room(FirstAck([u]), 6)) == 1;
  }
}
