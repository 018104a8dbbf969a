/** Whole streams of MQTT 5.0 packets: what the peer decodes from what the codec encodes. */
module V5Streams {
  import opened Wrappers
  import opened Words
  import opened Bytes
  import opened PacketTypes
  import opened LimitedProps
  import opened V5Packets
  import opened V5Limited
  import opened V5LimitedRoundTrip
  import opened V5Codec
  import V5Plain
  import V5PlainRoundTrip
  import VarInt
  import Frames

  /** Reason codes are those of the packet's type, as the source's enumerations ensure. */
  predicate Typed(p: Packet) {
    IsLimited(p) ==> CodesOk(p)
  }

  /** The packets that the encoder writes as its own decoder reads them. */
  predicate Survives(p: Packet) {
    match p
    case Connect(c) => V5PlainRoundTrip.WillPlain(c) && V5PlainRoundTrip.Identified(c)
    case Publish(m) => m.subscriptionIds.None?
    case Subscribe(s) => s.subscriptionId.None? && s.users == []
    case Unsubscribe(u) => u.users == []
    case _ => true
  }

  /** What the write pass leaves of a packet. */
  function Kept(q: Packet, limit: u32): Packet {
    if IsLimited(q) then Truncated(q, limit) else q
  }

  /** What arrives at the peer: stripped of problem information, then cut to the size limit. */
  function Sent(cfg: Settings, p: Packet): Packet {
    Kept(Prepared(cfg, p), Limit(cfg))
  }

  lemma DecodesLimited(p: Packet, src: seq<byte>)
    requires IsLimited(p)
    ensures DecodePacket(FirstByte(p), src) == GetLimited(p, src)
  {
    hide GetConnAck, GetPubAck, GetSubAck, GetDisconnect, GetAuth;
  }

  lemma DecodesPublish(m: Publication, src: seq<byte>)
    ensures DecodePacket(FirstByte(Publish(m)), src)
         == Map(V5Plain.GetPublish(V5Plain.PublishFlags(m), src), x => Publish(x))
  {
    hide V5Plain.GetPublish;
    var f := V5Plain.PublishFlags(m);
    assert f < 16 && (PUBLISH_START + f) % 16 == f;
    var r := V5Plain.GetPublish(f, src);
    assert Map(r, p => Publish(p)) == Map(r, x => Publish(x));
  }

  lemma PlainBody(p: Packet)
    requires !IsLimited(p) && ContentSize(p, 0) <= VarInt.MAX_VARINT && BodyError(p, ContentSize(p, 0)).None?
    ensures var body := PutBody(p, 0);
            && (DecodePacket(FirstByte(p), body) == Ok(p) <==> Survives(p))
            && (Survives(p) ==> |body| == ContentSize(p, 0))
  {
    hide V5Plain.GetPublish, V5Plain.GetConnect, V5Plain.GetSubscribe, V5Plain.GetUnsubscribe;
    hide V5Plain.ConnectSize, V5Plain.PublishSize, V5Plain.SubscribeSize, V5Plain.UnsubscribeSize;
    hide V5PlainRoundTrip.ConnectBody, V5PlainRoundTrip.PublishBody, V5Plain.PutSubscribe, V5Plain.PutUnsubscribe;
    hide V5PlainRoundTrip.WillPlain, V5PlainRoundTrip.Identified;
    match p
    case Connect(c) => V5PlainRoundTrip.ConnectIff(c);
    case Publish(m) =>
      DecodesPublish(m, V5PlainRoundTrip.PublishBody(m));
      V5PlainRoundTrip.PublishIff(m);
    case Subscribe(s) => V5PlainRoundTrip.SubscribeIff(s);
    case Unsubscribe(u) => V5PlainRoundTrip.UnsubscribeIff(u);
    case _ =>
  }

  /** The body of a packet that is within its limit. */
  lemma BodyDecodes(q: Packet, limit: u32)
    requires Typed(q) && ContentSize(q, limit) <= VarInt.MAX_VARINT && BodyError(q, ContentSize(q, limit)).None?
    ensures var size := ContentSize(q, limit);
            && (DecodePacket(FirstByte(q), PutBody(q, limit)) == Ok(Kept(q, limit)) <==> Survives(q))
            && (Survives(q) ==> |PutBody(q, limit)| == size)
  {
    hide DecodePacket, LimitedSize, CodesOk, PutLimited, Truncated, GetLimited, FirstByte, FieldsFit, LayoutOf, Writes;
    if IsLimited(q) {
      WritesIff(q, limit);
      TwoPass(q, limit);
      DecodesLimited(q, PutBody(q, limit));
    } else {
      PlainBody(q);
    }
  }

  /** Preparing keeps the type of a packet and its reason codes. */
  lemma PreparedTyped(cfg: Settings, p: Packet)
    requires Typed(p)
    ensures Typed(Prepared(cfg, p))
  {
  }

  /** An encoding is one frame of the prepared packet. */
  lemma EncodeCases(cfg: Settings, p: Packet)
    requires Encode(cfg, p).Ok?
    ensures var q := Prepared(cfg, p);
            var size := ContentSize(q, Limit(cfg));
            && size <= VarInt.MAX_VARINT && size <= Limit(cfg) && BodyError(q, size).None?
            && Encode(cfg, p).value == [FirstByte(q)] + VarInt.Put(size) + PutBody(q, Limit(cfg))
  {
  }

  /** Every field that is written fits its length bytes, and a PUBLISH has an identifier exactly for quality 1 and 2. */
  predicate Complete(q: Packet, limit: u32) {
    if IsLimited(q) then FieldsFit(q, limit)
    else
      match q
      case Connect(c) => V5Plain.ConnectFits(c)
      case Publish(m) => V5Plain.PublishFits(m) && V5Plain.PublishIdRule(m)
      case Subscribe(s) => forall i :: 0 <= i < |s.filters| ==> Fits(s.filters[i].topic)
      case Unsubscribe(u) => forall i :: 0 <= i < |u.topics| ==> Fits(u.topics[i])
      case _ => true
  }

  /** A packet is encoded exactly if its content is within the limits and it is complete. */
  lemma EncodableIff(cfg: Settings, p: Packet)
    ensures var q := Prepared(cfg, p);
            var size := ContentSize(q, Limit(cfg));
            Encode(cfg, p).Ok? <==>
              && size <= VarInt.MAX_VARINT && (cfg.maxOut == 0 || size <= cfg.maxOut) && Complete(q, Limit(cfg))
  {
    hide Prepared, LimitedSize, LayoutOf, Writes, PutBody, VarInt.Put, FirstByte, FieldsFit;
    hide V5Plain.ConnectSize, V5Plain.PublishSize, V5Plain.SubscribeSize, V5Plain.UnsubscribeSize;
    var q := Prepared(cfg, p);
    if IsLimited(q) && ContentSize(q, Limit(cfg)) <= VarInt.MAX_VARINT { WritesIff(q, Limit(cfg)); }
  }

  /** The reasons for which a packet within the limits is refused. */
  lemma EncodeErrors(cfg: Settings, p: Packet)
    ensures var q, r := Prepared(cfg, p), Encode(cfg, p);
            var size := ContentSize(q, Limit(cfg));
            var within := size <= Limit(cfg) && size <= VarInt.MAX_VARINT;
            var idRule := q.Publish? ==> V5Plain.PublishIdRule(q.publication);
            && (cfg.maxOut != 0 && size > cfg.maxOut ==> r == Err(EncInvalidLength))
            && (within && !idRule && Fits(q.publication.topic) ==>
                  r == Err(if q.publication.qos == 0 then EncMalformedPacket else EncPacketIdRequired))
            && (within && idRule && r.Err? ==> r == Err(EncInvalidLength))
  {
    hide Prepared, LimitedSize, LayoutOf, Writes, PutBody, VarInt.Put, FirstByte;
    hide V5Plain.ConnectSize, V5Plain.PublishSize, V5Plain.SubscribeSize, V5Plain.UnsubscribeSize;
  }

  /** A packet that survives is read back as it was sent, whatever follows it in the stream. */
  lemma PacketRoundTrip(cfg: Settings, p: Packet, max: u32, rest: seq<byte>)
    requires Encode(cfg, p).Ok? && Typed(p) && Survives(Prepared(cfg, p))
    requires max == 0 || Limit(cfg) <= max
    ensures Frames.ParseStream(DecodePacket, max, Encode(cfg, p).value + rest)
         == Frames.Prepend([Sent(cfg, p)], Frames.ParseStream(DecodePacket, max, rest))
  {
    hide Encode, BodyError, ContentSize, PutBody, FirstByte, Prepared, DecodePacket, Typed, Survives;
    hide VarInt.Put, Truncated, Frames.ParseStream;
    var q := Prepared(cfg, p);
    EncodeCases(cfg, p);
    PreparedTyped(cfg, p);
    BodyDecodes(q, Limit(cfg));
    Frames.FrameRoundTrip(DecodePacket, max, FirstByte(q), PutBody(q, Limit(cfg)), rest);
  }

  /** A packet, encoded on its own, is all that the peer reads. */
  ghost predicate RoundTrips(cfg: Settings, p: Packet) {
    && Encode(cfg, p).Ok?
    && Frames.ParseStream(DecodePacket, 0, Encode(cfg, p).value) == Frames.Parsed([Sent(cfg, p)], Frames.Residue([]))
  }

  /** A frame that leaves nothing over held the whole body. */
  lemma OwnFrame(dec: Frames.BodyDecoder<Packet>, first: byte, n: nat, body: seq<byte>, q: Packet)
    requires n <= VarInt.MAX_VARINT
    requires Frames.ParseStream(dec, 0, [first] + VarInt.Put(n) + body) == Frames.Parsed([q], Frames.Residue([]))
    ensures |body| == n && dec(first, body) == Ok(q)
  {
    hide VarInt.Put, Frames.ParseStream, Frames.ReadHeader;
    var s := [first] + VarInt.Put(n) + body;
    Frames.HeaderRoundTrip(0, first, n, body);
    Frames.ParseKnown(dec, 0, Frames.Header(first, n, 1 + |VarInt.Put(n)|), s);
    var tail := Frames.ParseStream(dec, 0, body[n..]);
    var r := dec(first, body[..n]);
    assert r.Ok? && [r.value] + tail.packets == [q];
    assert ([r.value] + tail.packets)[0] == r.value && tail.packets == [];
    NothingLeft(dec, body[n..]);
    assert body[..n] == body;
  }

  lemma NothingLeft(dec: Frames.BodyDecoder<Packet>, s: seq<byte>)
    requires Frames.ParseStream(dec, 0, s) == Frames.Parsed([], Frames.Residue([]))
    ensures s == []
  {
  }

  /** Of the packets that can be encoded, exactly those that survive are read back as they were sent. */
  lemma RoundTripsIff(cfg: Settings, p: Packet)
    requires Encode(cfg, p).Ok? && Typed(p)
    ensures RoundTrips(cfg, p) <==> Survives(Prepared(cfg, p))
  {
    hide Encode, BodyError, ContentSize, PutBody, FirstByte, Prepared, DecodePacket, Typed, Survives;
    hide VarInt.Put, Truncated, Frames.ParseStream;
    var q := Prepared(cfg, p);
    if Survives(q) {
      PacketRoundTrip(cfg, p, 0, []);
      assert Encode(cfg, p).value + [] == Encode(cfg, p).value;
      EmptyStream(DecodePacket, 0);
    }
    if RoundTrips(cfg, p) {
      EncodeCases(cfg, p);
      var size := ContentSize(q, Limit(cfg));
      OwnFrame(DecodePacket, FirstByte(q), size, PutBody(q, Limit(cfg)), Sent(cfg, p));
      PreparedTyped(cfg, p);
      BodyDecodes(q, Limit(cfg));
    }
  }

  lemma EmptyStream(dec: Frames.BodyDecoder<Packet>, max: u32)
    ensures Frames.ParseStream(dec, max, []) == Frames.Parsed([], Frames.Residue([]))
  {
  }

  function EncodeAll(cfg: Settings, ps: seq<Packet>): seq<byte>
    requires forall i :: 0 <= i < |ps| ==> Encode(cfg, ps[i]).Ok?
  {
    if ps == [] then [] else Encode(cfg, ps[0]).value + EncodeAll(cfg, ps[1..])
  }

  function SentAll(cfg: Settings, ps: seq<Packet>): (r: seq<Packet>)
    ensures |r| == |ps| && forall i :: 0 <= i < |ps| ==> r[i] == Sent(cfg, ps[i])
  {
    seq(|ps|, i requires 0 <= i < |ps| => Sent(cfg, ps[i]))
  }

  /** Decoding the concatenated encodings gives the packets as they were sent, in order, with nothing left over. */
  lemma {:induction false} StreamRoundTrip(cfg: Settings, ps: seq<Packet>, max: u32)
    requires forall i :: 0 <= i < |ps| ==> Encode(cfg, ps[i]).Ok? && Typed(ps[i]) && Survives(Prepared(cfg, ps[i]))
    requires max == 0 || Limit(cfg) <= max
    ensures Frames.ParseStream(DecodePacket, max, EncodeAll(cfg, ps))
         == Frames.Parsed(SentAll(cfg, ps), Frames.Residue([]))
  {
    hide Encode, Sent, Prepared, DecodePacket, Typed, Survives, Frames.ParseStream;
    if ps == [] {
      EmptyStream(DecodePacket, max);
    } else {
      StreamRoundTrip(cfg, ps[1..], max);
      PacketRoundTrip(cfg, ps[0], max, EncodeAll(cfg, ps[1..]));
      assert SentAll(cfg, ps) == [Sent(cfg, ps[0])] + SentAll(cfg, ps[1..]);
    }
  }

  // ----- Problem information

  /** What the codec remembers of the CONNECT packets it has decoded. */
  function AfterDecoding(flag: bool, ps: seq<Packet>): bool {
    if ps == [] then flag
    else
      var last := ps[|ps| - 1];
      if last.Connect? then !last.connection.problemInfo else AfterDecoding(flag, ps[..|ps| - 1])
  }

  /** No reason string and no user properties. */
  predicate Unexplained(p: Packet) {
    match p
    case PublishAck(a) => a.users == [] && a.reason.None?
    case PublishReceived(a) => a.users == [] && a.reason.None?
    case PublishRelease(a) => a.users == [] && a.reason.None?
    case PublishComplete(a) => a.users == [] && a.reason.None?
    case Subscribe(s) => s.users == []
    case SubscribeAck(a) => a.users == [] && a.reason.None?
    case Unsubscribe(u) => u.users == []
    case UnsubscribeAck(a) => a.users == [] && a.reason.None?
    case Auth(a) => a.users == [] && a.reason.None?
    case _ => true
  }

  lemma {:induction false} LastConnectDecides(flag: bool, ps: seq<Packet>, k: nat)
    requires k < |ps| && ps[k].Connect? && forall i :: k < i < |ps| ==> !ps[i].Connect?
    ensures AfterDecoding(flag, ps) == !ps[k].connection.problemInfo
  {
    if k < |ps| - 1 {
      LastConnectDecides(flag, ps[..|ps| - 1], k);
    }
  }

  /** The packets that must not carry problem information if the peer declined it. */
  predicate Withholds(p: Packet) {
    !(p.Connect? || p.ConnectAck? || p.Publish? || p.Disconnect?)
  }

  /** Nothing but declined problem information is taken from a packet before it is encoded. */
  lemma OnlyProblemInfoStripped(cfg: Settings, p: Packet)
    ensures Prepared(cfg, p) == if cfg.noProblemInfo && Withholds(p) then Stripped(p) else p
  {
  }

  /**
    Section 3.1.2.11.7 of MQTT 5.0: once the last CONNECT that was decoded declined problem
    information, the peer never reads a reason string or a user property in a packet other
    than CONNECT, PUBLISH, CONNACK or DISCONNECT.
   */
  lemma ProblemInfoWithheld(decoded: seq<Packet>, k: nat, maxOut: u32, p: Packet)
    requires k < |decoded| && decoded[k].Connect? && !decoded[k].connection.problemInfo
    requires forall i :: k < i < |decoded| ==> !decoded[i].Connect?
    ensures var cfg := Settings(AfterDecoding(false, decoded), maxOut);
            Unexplained(Sent(cfg, p))
  {
    hide Room, ConnAckSlots, DisconnectSlots, AuthSlots, Truncated, Prepared, UsersSize, Spare, Limit;
    LastConnectDecides(false, decoded, k);
    var cfg := Settings(true, maxOut);
    OnlyProblemInfoStripped(cfg, p);
    var q := Prepared(cfg, p);
    if IsLimited(q) { WhatIsKept(q, Limit(cfg), 0); }
  }

  /**
    From the packet to the peer: only user properties and the reason string can be missing, and
    nothing is if problem information was not declined and all of it fits.
   */
  lemma SentKeeps(cfg: Settings, p: Packet)
    ensures Stripped(Sent(cfg, p)) == Stripped(p)
    ensures !(cfg.noProblemInfo && Withholds(p)) && !IsLimited(p) ==> Sent(cfg, p) == p
    ensures !(cfg.noProblemInfo && Withholds(p)) && IsLimited(p) ==>
              (Sent(cfg, p) == p <==>
                 var l := LayoutOf(p);
                 UsersSize(l.users) + (if l.reason.Some? then 1 + 2 + |l.reason.value| else 0)
                 <= Spare(p, Limit(cfg)))
  {
    hide Room, Spare, ConnAckSlots, DisconnectSlots, AuthSlots, Truncated, Limit, UsersSize;
    var q := Prepared(cfg, p);
    OnlyProblemInfoStripped(cfg, p);
    if IsLimited(q) {
      WhatIsKept(q, Limit(cfg), 0);
      TruncatedKeepsAll(q, Limit(cfg));
    }
  }
}
