/** Decoding inverts encoding for MQTT 3.1.1, packet by packet and over whole streams. */
module V3RoundTrip {
  import opened Wrappers
  import opened Words
  import opened Bytes
  import opened PacketTypes
  import opened V3Packets
  import opened V3Codec
  import VarInt
  import Frames

  // ----- Bodies

  lemma FilterRoundTrip(f: Filter, tail: seq<byte>)
    requires Fits(f.topic)
    ensures var src := PutBytes(f.topic) + [f.qos] + tail;
            && GetStr(src) == Ok(Read(f.topic, [f.qos] + tail))
            && GetQos((([f.qos] + tail)[0] as int) % 4) == Ok(f.qos)
            && ([f.qos] + tail)[1..] == tail
  {
    StrRoundTrip(f.topic, [f.qos] + tail);
    assert PutBytes(f.topic) + [f.qos] + tail == PutBytes(f.topic) + ([f.qos] + tail);
  }

  lemma {:induction false} FiltersRoundTrip(fs: seq<Filter>)
    requires forall i :: 0 <= i < |fs| ==> Fits(fs[i].topic)
    ensures GetFilters(PutFilters(fs)) == Ok(fs)
  {
    hide GetStr, PutBytes;
    if fs != [] {
      FiltersRoundTrip(fs[1..]);
      FilterRoundTrip(fs[0], PutFilters(fs[1..]));
      assert fs == [Filter(fs[0].topic, fs[0].qos)] + fs[1..];
    }
  }

  lemma {:induction false} StatusRoundTrip(status: seq<ReturnCode>)
    ensures GetStatus(PutStatus(status)) == Ok(status)
  {
    if status != [] {
      StatusRoundTrip(status[1..]);
      assert PutStatus(status)[1..] == PutStatus(status[1..]);
      assert status == [status[0]] + status[1..];
    }
  }

  lemma FlagsRoundTrip(c: Connection)
    ensures var f := ConnectFlags(c);
            && f % 2 == 0
            && (f / 2 % 2 == 1 <==> c.cleanSession)
            && (f / 4 % 2 == 1 <==> c.lastWill.Some?)
            && (c.lastWill.Some? ==>
                  f / 8 % 4 == c.lastWill.value.qos && (f / 32 % 2 == 1 <==> c.lastWill.value.retain))
            && (f / 64 % 2 == 1 <==> c.password.Some?)
            && (f / 128 == 1 <==> c.username.Some?)
  {
    FlagBits(Bit(c.username.Some?), Bit(c.password.Some?),
             if c.lastWill.Some? then Bit(c.lastWill.value.retain) else 0,
             if c.lastWill.Some? then c.lastWill.value.qos else 0,
             Bit(c.lastWill.Some?), Bit(c.cleanSession));
  }

  lemma WillRoundTrip(flags: byte, w: Option<LastWill>, rest: seq<byte>)
    requires w.Some? ==> Fits(w.value.topic) && Fits(w.value.message)
    requires flags / 4 % 2 == 1 <==> w.Some?
    requires w.Some? ==> flags / 8 % 4 == w.value.qos && (flags / 32 % 2 == 1 <==> w.value.retain)
    ensures GetWill(flags, PutWill(w) + rest) == Ok(Read(w, rest))
  {
    if w.Some? {
      var will := w.value;
      assert PutWill(w) + rest == PutBytes(will.topic) + (PutBytes(will.message) + rest);
      StrRoundTrip(will.topic, PutBytes(will.message) + rest);
      BytesRoundTrip(will.message, rest);
    } else {
      assert [] + rest == rest;
    }
  }

  /** The decoder demands a client identifier unless the session is clean. */
  predicate Identified(c: Connection) {
    c.clientId != [] || c.cleanSession
  }

  lemma ConnectTailRoundTrip(c: Connection)
    requires FieldsFit(Connect(c))
    ensures GetConnectTail(ConnectFlags(c), ConnectTail(c)) == if Identified(c) then Ok(c) else Err(InvalidClientId)
  {
    var r4 := PutOpt(c.password);
    var r3 := PutOpt(c.username) + r4;
    var r2 := PutWill(c.lastWill) + r3;
    FlagsRoundTrip(c);
    U16RoundTrip(c.keepAlive, PutBytes(c.clientId) + r2);
    StrRoundTrip(c.clientId, r2);
    WillRoundTrip(ConnectFlags(c), c.lastWill, r3);
    OptRoundTrip(c.username, c.password);
  }

  lemma ConnectRoundTrip(c: Connection)
    requires FieldsFit(Connect(c))
    ensures GetConnect(PutBody(Connect(c))) == if Identified(c) then Ok(Connect(c)) else Err(InvalidClientId)
  {
    var b := PutBody(Connect(c));
    var name := PutBytes(ProtocolName());
    assert b == name + ([LEVEL_3, ConnectFlags(c)] + ConnectTail(c));
    assert b[..6] == name && b[6] == LEVEL_3 && b[7] == ConnectFlags(c) && b[8..] == ConnectTail(c);
    FlagsRoundTrip(c);
    ConnectTailRoundTrip(c);
  }

  lemma PublishFlags(p: Packet)
    requires p.Publish?
    ensures var f := FirstByte(p) as int % 16;
            && PUBLISH_START <= FirstByte(p) <= PUBLISH_END
            && f / 2 % 4 == p.qos && (f / 8 == 1 <==> p.dup) && (f % 2 == 1 <==> p.retain)
  {
  }

  lemma PublishRoundTrip(p: Packet)
    requires p.Publish? && FieldsFit(p) && (p.packetId.Some? <==> p.qos > 0)
    ensures GetPublish((FirstByte(p) as int) % 16, PutBody(p)) == Ok(p)
  {
    PublishFlags(p);
    if p.qos > 0 {
      U16RoundTrip(p.packetId.value, p.payload);
      StrRoundTrip(p.topic, PutU16(p.packetId.value) + p.payload);
    } else {
      assert [] + p.payload == p.payload;
      StrRoundTrip(p.topic, p.payload);
    }
  }

  /** The identifier rule of the encoder: present exactly for quality of service 1 and 2. */
  predicate IdRule(p: Packet) {
    p.Publish? ==> (p.packetId.Some? <==> p.qos > 0)
  }

  lemma ListsRoundTrip(p: Packet)
    requires FieldsFit(p) && (p.Subscribe? || p.SubscribeAck? || p.Unsubscribe?)
    ensures DecodePacket(FirstByte(p), PutBody(p)) == Ok(p)
  {
    match p
    case Subscribe(id, fs) => U16RoundTrip(id, PutFilters(fs)); FiltersRoundTrip(fs);
    case SubscribeAck(id, cs) => U16RoundTrip(id, PutStatus(cs)); StatusRoundTrip(cs);
    case Unsubscribe(id, ts) => U16RoundTrip(id, PutTopics(ts)); TopicsRoundTrip(ts);
  }

  lemma BodyRoundTrip(p: Packet)
    requires FieldsFit(p) && IdRule(p)
    ensures DecodePacket(FirstByte(p), PutBody(p)) ==
            if p.Connect? && !Identified(p.connection) then Err(InvalidClientId) else Ok(p)
  {
    if p.Connect? {
      ConnectRoundTrip(p.connection);
    } else if p.Publish? {
      PublishFlags(p);
      PublishRoundTrip(p);
    } else if p.Subscribe? || p.SubscribeAck? || p.Unsubscribe? {
      ListsRoundTrip(p);
    }
  }

  // ----- A decoded packet is never larger than the bytes it came from

  lemma {:induction false} FiltersDecodedSize(src: seq<byte>)
    ensures GetFilters(src).Ok? ==> FiltersSize(GetFilters(src).value) == |src|
    decreases |src|
  {
    if GetFilters(src).Ok? && src != [] {
      var Read(topic, r1) := GetStr(src).value;
      FiltersDecodedSize(r1[1..]);
      var fs := GetFilters(src).value;
      assert fs[1..] == GetFilters(r1[1..]).value;
    }
  }

  lemma {:induction false} StatusDecodedSize(src: seq<byte>)
    ensures GetStatus(src).Ok? ==> |GetStatus(src).value| == |src|
  {
    if src != [] { StatusDecodedSize(src[1..]); }
  }

  lemma ConnectDecodedSize(src: seq<byte>)
    requires GetConnect(src).Ok?
    ensures EncodedSize(GetConnect(src).value) <= |src|
  {
    var flags := src[7];
    var Read(keepAlive, r1) := GetU16(src[8..]).value;
    var Read(clientId, r2) := GetStr(r1).value;
    var Read(will, r3) := GetWill(flags, r2).value;
    assert |r2| == WillSize(will) + |r3|;
    var Read(username, r4) := GetOptStr(flags / 128 == 1, r3).value;
    assert |r3| == OptLen(username) + |r4|;
    var Read(password, r5) := GetOptBytes(flags / 64 % 2 == 1, r4).value;
    assert |r4| == OptLen(password) + |r5|;
  }

  lemma DecodedSize(first: byte, src: seq<byte>)
    requires DecodePacket(first, src).Ok?
    ensures EncodedSize(DecodePacket(first, src).value) <= |src|
  {
    if first == CONNECT {
      ConnectDecodedSize(src);
    } else if first == SUBSCRIBE {
      FiltersDecodedSize(src[2..]);
    } else if first == SUBACK {
      StatusDecodedSize(src[2..]);
    } else if first == UNSUBSCRIBE {
      TopicsDecodedSize(src[2..]);
    }
  }

  // ----- Packets and streams

  predicate WellFormed(p: Packet) {
    && FieldsFit(p) && IdRule(p)
    && (p.Connect? ==> Identified(p.connection))
    && EncodedSize(p) <= VarInt.MAX_VARINT
  }

  /** Encoding and decoding a packet gives it back and leaves nothing over. */
  ghost predicate RoundTrips(p: Packet) {
    && Encode(p).Ok?
    && Frames.ParseStream(DecodePacket, 0, Encode(p).value) == Frames.Parsed([p], Frames.Residue([]))
  }

  /** The bytes of an encoding: the first byte, the announced size and the body. */
  function Announced(p: Packet): nat {
    EncodedSize(p) % U32
  }

  predicate Encodable(p: Packet) {
    FieldsFit(p) && IdRule(p) && Announced(p) <= VarInt.MAX_VARINT
  }

  lemma EncodeCases(p: Packet)
    ensures Encode(p).Ok? <==> Encodable(p)
    ensures Encode(p).Ok? ==> Encode(p).value == [FirstByte(p)] + VarInt.Put(Announced(p)) + PutBody(p)
  {
  }

  /** Each reason for which a packet is refused. */
  lemma EncodeErrors(p: Packet)
    ensures p.Publish? && p.qos > 0 && p.packetId.None? ==> Encode(p) == Err(EncPacketIdRequired)
    ensures IdRule(p) && Announced(p) > VarInt.MAX_VARINT ==> Encode(p) == Err(LengthTooBig)
    ensures IdRule(p) && Announced(p) <= VarInt.MAX_VARINT && !FieldsFit(p) ==> Encode(p) == Err(EncInvalidLength)
    ensures p.Publish? && p.qos == 0 && p.packetId.Some? && FieldsFit(p) && Announced(p) <= VarInt.MAX_VARINT ==>
              Encode(p) == Err(EncMalformedPacket)
  {
    hide EncodedSize, FieldsFit, VarInt.Put, PutBody;
  }

  /** The content size that is announced is the number of bytes written after the fixed header. */
  lemma SizeIsWritten(p: Packet)
    requires Encode(p).Ok? && EncodedSize(p) < U32
    ensures |Encode(p).value| == 1 + VarInt.Len(EncodedSize(p)) + EncodedSize(p)
  {
    EncodeCases(p);
    assert Announced(p) == EncodedSize(p);
    VarInt.LenIsWritten(Announced(p));
  }

  lemma EncodeIsFrame(p: Packet)
    requires WellFormed(p)
    ensures Encode(p).Ok?
    ensures Encode(p).value == Frames.PutFrame(FirstByte(p), PutBody(p))
    ensures DecodePacket(FirstByte(p), PutBody(p)) == Ok(p)
  {
    hide DecodePacket, PutBody, FirstByte, EncodedSize, Encode;
    EncodeCases(p);
    BodyRoundTrip(p);
    assert Announced(p) == EncodedSize(p);
  }

  lemma WellFormedRoundTrips(p: Packet, max: u32, rest: seq<byte>)
    requires WellFormed(p) && (max == 0 || EncodedSize(p) <= max)
    ensures Encode(p).Ok?
    ensures Frames.ParseStream(DecodePacket, max, Encode(p).value + rest)
         == Frames.Prepend([p], Frames.ParseStream(DecodePacket, max, rest))
  {
    hide DecodePacket, PutBody, FirstByte, EncodedSize, Encode, Frames.ParseStream;
    EncodeIsFrame(p);
    Frames.FrameRoundTrip(DecodePacket, max, FirstByte(p), PutBody(p), rest);
  }

  /** What a packet that round-trips says about its own frame. */
  ghost predicate OwnFrame(p: Packet) {
    Encodable(p) && DecodePacket(FirstByte(p), PutBody(p)[..Announced(p)]) == Ok(p)
  }

  lemma FirstPacketDecodes(p: Packet)
    requires RoundTrips(p)
    ensures OwnFrame(p)
  {
    hide DecodePacket, PutBody, FirstByte, EncodedSize, Encode;
    EncodeCases(p);
    var n, body, first := Announced(p), PutBody(p), FirstByte(p);
    Frames.AnnouncedFrame(DecodePacket, 0, first, n, body);
    assert Frames.ParseStream(DecodePacket, 0, [first] + VarInt.Put(n) + body).packets == [p];
    var r := DecodePacket(first, body[..n]);
    assert r.Ok?;
    assert ([r.value] + Frames.ParseStream(DecodePacket, 0, body[n..]).packets)[0] == r.value;
  }

  lemma RoundTripImpliesWellFormed(p: Packet)
    requires RoundTrips(p)
    ensures WellFormed(p)
  {
    hide DecodePacket, PutBody, FirstByte, EncodedSize, Encode;
    FirstPacketDecodes(p);
    DecodedSize(FirstByte(p), PutBody(p)[..Announced(p)]);
    assert EncodedSize(p) == Announced(p);
    assert PutBody(p)[..EncodedSize(p)] == PutBody(p);
    BodyRoundTrip(p);
  }

  /** A packet survives encoding and decoding exactly if it is well formed. */
  lemma RoundTripsIff(p: Packet)
    ensures RoundTrips(p) <==> WellFormed(p)
  {
    if WellFormed(p) {
      WellFormedRoundTrips(p, 0, []);
      assert Encode(p).value + [] == Encode(p).value;
    }
    if RoundTrips(p) {
      RoundTripImpliesWellFormed(p);
    }
  }

  function EncodeAll(ps: seq<Packet>): seq<byte>
    requires forall i :: 0 <= i < |ps| ==> Encode(ps[i]).Ok?
  {
    if ps == [] then [] else Encode(ps[0]).value + EncodeAll(ps[1..])
  }

  /** Decoding the concatenated encodings of well-formed packets gives the packets back. */
  lemma {:induction false} StreamRoundTrip(ps: seq<Packet>, max: u32)
    requires forall i :: 0 <= i < |ps| ==> WellFormed(ps[i]) && (max == 0 || EncodedSize(ps[i]) <= max)
    ensures forall i :: 0 <= i < |ps| ==> Encode(ps[i]).Ok?
    ensures Frames.ParseStream(DecodePacket, max, EncodeAll(ps)) == Frames.Parsed(ps, Frames.Residue([]))
  {
    forall i | 0 <= i < |ps| ensures Encode(ps[i]).Ok? {
      WellFormedRoundTrips(ps[i], max, []);
    }
    if ps != [] {
      StreamRoundTrip(ps[1..], max);
      WellFormedRoundTrips(ps[0], max, EncodeAll(ps[1..]));
    }
  }
}
