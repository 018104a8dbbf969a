/** Protocol version detection on the first bytes of a connection (src/version.rs:23-58). */
module Version {
  import opened Wrappers
  import opened Words
  import opened Bytes
  import opened PacketTypes
  import VarInt
  import Frames
  import Props
  import V3Packets
  import V3Codec
  import V3RoundTrip
  import V5Packets
  import V5Plain
  import V5PlainRoundTrip
  import V5Codec
  import V5Streams

  datatype ProtocolVersion = MQTT3 | MQTT5

  /** None asks for more bytes; the buffer is only looked at. */
  function Sniff(s: seq<byte>): Result<Option<ProtocolVersion>, DecodeError> {
    match Frames.ReadHeader(0, s)
    case Incomplete => Ok(None)
    case Bad(e) => Err(e)
    case Header(first, _, size) =>
      if first != CONNECT then Err(UnsupportedPacketType)
      else if |s| <= size + 6 then Ok(None)
      else if s[size..size + 6] != PutBytes(ProtocolName()) then Err(InvalidProtocol)
      else if s[size + 6] == LEVEL_3 then Ok(Some(MQTT3))
      else if s[size + 6] == LEVEL_5 then Ok(Some(MQTT5))
      else Err(InvalidProtocol)
  }

  /** An answer, once given, does not change when more bytes arrive. */
  lemma SniffStable(s: seq<byte>, more: seq<byte>)
    requires Sniff(s) != Ok(None)
    ensures Sniff(s + more) == Sniff(s)
  {
    hide Frames.ReadHeader, PutBytes;
    Frames.HeaderStable(0, s, more);
    var h := Frames.ReadHeader(0, s);
    if h.Header? && |s| > h.size + 6 {
      assert (s + more)[h.size..h.size + 6] == s[h.size..h.size + 6];
    }
  }

  // ----- The errors of the decoders behind it

  predicate ProtocolError<T>(r: Result<T, DecodeError>) {
    r == Err(InvalidProtocol) || r == Err(UnsupportedProtocolLevel)
  }

  lemma FieldErrors(src: seq<byte>)
    ensures !ProtocolError(GetU16(src)) && !ProtocolError(GetBytes(src)) && !ProtocolError(GetStr(src))
  {
  }

  lemma V3TailErrors(flags: byte, src: seq<byte>)
    ensures !ProtocolError(V3Codec.GetConnectTail(flags, src))
  {
    hide GetStr, GetBytes, Utf8;
    forall x: seq<byte> ensures !ProtocolError(GetStr(x)) && !ProtocolError(GetBytes(x)) {
      FieldErrors(x);
    }
  }

  lemma VarIntErrors(src: seq<byte>)
    ensures !ProtocolError(VarInt.Get(src))
  {
    VarInt.Unfold(src);
  }

  lemma ValErrors(k: Props.Kind, src: seq<byte>)
    ensures !ProtocolError(Props.GetVal(k, src))
  {
    hide GetStr, GetBytes, VarInt.Get;
    forall x: seq<byte>
      ensures !ProtocolError(GetStr(x)) && !ProtocolError(GetBytes(x)) && !ProtocolError(VarInt.Get(x))
    {
      FieldErrors(x);
      VarIntErrors(x);
    }
  }

  lemma {:induction false} PropsErrors(table: Props.Table, src: seq<byte>, acc: seq<Props.Prop>)
    ensures !ProtocolError(Props.GetProps(table, src, acc))
    decreases |src|
  {
    hide Props.GetVal;
    if src != [] && src[0] in table {
      ValErrors(table[src[0]], src[1..]);
      var v := Props.GetVal(table[src[0]], src[1..]);
      if v.Ok? {
        PropsErrors(table, v.value.rest, acc + [Props.Prop(src[0], v.value.value)]);
      }
    }
  }

  lemma BlockErrors(table: Props.Table, src: seq<byte>)
    ensures !ProtocolError(Props.GetBlock(table, src))
  {
    hide VarInt.Get, Props.GetProps;
    VarIntErrors(src);
    var n := VarInt.Get(src);
    if n.Ok? && n.value.value <= |n.value.rest| {
      PropsErrors(table, n.value.rest[..n.value.value], []);
    }
  }

  lemma V5EndErrors(flags: byte, keepAlive: u16, ps: seq<Props.Prop>, src: seq<byte>)
    ensures !ProtocolError(V5Plain.GetConnectEnd(flags, keepAlive, ps, src))
  {
    hide GetStr, GetBytes, Props.GetBlock, V5Plain.BuildConnect, V5Plain.BuildWill;
    forall x: seq<byte> ensures !ProtocolError(GetStr(x)) && !ProtocolError(GetBytes(x)) {
      FieldErrors(x);
    }
    forall x: seq<byte> ensures !ProtocolError(Props.GetBlock(V5Plain.WILL_TABLE, x)) {
      BlockErrors(V5Plain.WILL_TABLE, x);
    }
  }

  /** The name and the level in the body of a CONNECT packet. */
  predicate Speaks(level: byte, body: seq<byte>) {
    |body| >= 7 && body[..6] == PutBytes(ProtocolName()) && body[6] == level
  }

  lemma V3Decides(body: seq<byte>)
    requires |body| >= 10
    ensures ProtocolError(V3Codec.DecodePacket(CONNECT, body)) <==> !Speaks(LEVEL_3, body)
  {
    hide V3Codec.GetConnectTail, PutBytes;
    V3TailErrors(body[7], body[8..]);
  }

  lemma V5Decides(body: seq<byte>)
    requires |body| >= 10
    ensures ProtocolError(V5Codec.DecodePacket(CONNECT, body)) <==> !Speaks(LEVEL_5, body)
  {
    hide V5Plain.GetConnectEnd, Props.GetBlock, PutBytes;
    BlockErrors(V5Plain.CONNECT_TABLE, body[10..]);
    var b := Props.GetBlock(V5Plain.CONNECT_TABLE, body[10..]);
    if b.Ok? {
      V5EndErrors(body[7], body[8] as int * 256 + body[9], b.value.value, b.value.rest);
    }
  }

  /** A short CONNECT packet is rejected for its length. */
  lemma ShortConnect(body: seq<byte>)
    requires |body| < 10
    ensures V3Codec.DecodePacket(CONNECT, body) == Err(InvalidLength)
    ensures V5Codec.DecodePacket(CONNECT, body) == Err(InvalidLength)
  {
  }

  /** What is sniffed from a whole CONNECT frame. */
  lemma SniffsFrame(s: seq<byte>, h: Frames.Header)
    requires h.Header? && Frames.ReadHeader(0, s) == h && h.first == CONNECT
    requires h.size + h.remaining <= |s| && h.remaining >= 7
    ensures var body := s[h.size..h.size + h.remaining];
            Sniff(s) == if Speaks(LEVEL_3, body) then Ok(Some(MQTT3))
                        else if Speaks(LEVEL_5, body) then Ok(Some(MQTT5))
                        else Err(InvalidProtocol)
  {
  }

  /** The length of the fixed header that a stream starts with; five bytes of length never end. */
  ghost predicate HeaderEnds(s: seq<byte>, size: nat) {
    2 <= size <= 5 && size <= |s| && s[size - 1] < 128 && forall i :: 1 <= i < size - 1 ==> s[i] >= 128
  }

  /**
    Every answer: more bytes are asked for exactly until the seventh byte behind the fixed header of a CONNECT, or the
    end of any other fixed header; then protocol name and level decide.
   */
  lemma SniffExact(s: seq<byte>, size: nat)
    ensures |s| < 5 && (forall i :: 1 <= i < |s| ==> s[i] >= 128) ==> Sniff(s) == Ok(None)
    ensures |s| >= 5 && (forall i :: 1 <= i < 5 ==> s[i] >= 128) ==> Sniff(s) == Err(InvalidLength)
    ensures HeaderEnds(s, size) ==>
              Sniff(s) == if s[0] != CONNECT then Err(UnsupportedPacketType)
                          else if |s| < size + 7 then Ok(None)
                          else if Speaks(LEVEL_3, s[size..]) then Ok(Some(MQTT3))
                          else if Speaks(LEVEL_5, s[size..]) then Ok(Some(MQTT5))
                          else Err(InvalidProtocol)
  {
    hide PutBytes;
    Frames.HeaderKinds(s);
    if HeaderEnds(s, size) {
      VarInt.Unfold(s[1..]);
      assert forall i :: 0 <= i < |s| - 1 ==> s[1..][i] == s[i + 1];
      assert Frames.ReadHeader(0, s).size == size;
      if |s| >= size + 7 {
        assert s[size..][..6] == s[size..size + 6];
      }
    }
  }

  /**
    Sniffing agrees with the decoders: for a CONNECT frame that either decoder would look
    into, the answer names exactly the decoder that does not reject the protocol.
   */
  lemma SniffAgrees(s: seq<byte>, h: Frames.Header)
    requires h.Header? && Frames.ReadHeader(0, s) == h && h.first == CONNECT
    requires h.size + h.remaining <= |s| && h.remaining >= 10
    ensures var body := s[h.size..h.size + h.remaining];
            && (Sniff(s) == Ok(Some(MQTT3)) <==> !ProtocolError(V3Codec.DecodePacket(CONNECT, body)))
            && (Sniff(s) == Ok(Some(MQTT5)) <==> !ProtocolError(V5Codec.DecodePacket(CONNECT, body)))
            && (Sniff(s) == Err(InvalidProtocol) <==>
                && ProtocolError(V3Codec.DecodePacket(CONNECT, body))
                && ProtocolError(V5Codec.DecodePacket(CONNECT, body)))
  {
    hide Frames.ReadHeader, Sniff, V3Codec.DecodePacket, V5Codec.DecodePacket;
    var body := s[h.size..h.size + h.remaining];
    SniffsFrame(s, h);
    V3Decides(body);
    V5Decides(body);
  }

  /** The first frame of a stream fails with one of the two protocol errors. */
  predicate Refused<P(==)>(p: Frames.Parsed<P>) {
    p.packets == [] && (p.ending == Frames.Fault(InvalidProtocol) || p.ending == Frames.Fault(UnsupportedProtocolLevel))
  }

  /** Whatever arrives after the answer, the decoder it names does not refuse the protocol of the first frame. */
  lemma ChosenNeverRefuses(s: seq<byte>, more: seq<byte>, max: u32)
    requires Sniff(s).Ok? && Sniff(s).value.Some?
    ensures Sniff(s).value.value == MQTT3 ==> !Refused(Frames.ParseStream(V3Codec.DecodePacket, max, s + more))
    ensures Sniff(s).value.value == MQTT5 ==> !Refused(Frames.ParseStream(V5Codec.DecodePacket, max, s + more))
  {
    hide Frames.ReadHeader, Frames.ParseStream, Sniff, V3Codec.DecodePacket, V5Codec.DecodePacket;
    var t := s + more;
    SniffStable(s, more);
    SniffedHeader(t);
    var h := Frames.ReadHeader(0, t);
    FirstFrame(V3Codec.DecodePacket, max, t);
    FirstFrame(V5Codec.DecodePacket, max, t);
    if h.size + h.remaining <= |t| {
      if h.remaining >= 10 {
        SniffAgrees(t, h);
      } else {
        ShortConnect(t[h.size..h.size + h.remaining]);
      }
    }
  }

  lemma SniffedHeader(s: seq<byte>)
    requires Sniff(s).Ok? && Sniff(s).value.Some?
    ensures Frames.ReadHeader(0, s).Header? && Frames.ReadHeader(0, s).first == CONNECT
  {
  }

  lemma FirstFrame<P>(dec: Frames.BodyDecoder<P>, max: u32, s: seq<byte>)
    requires Frames.ReadHeader(0, s).Header?
    ensures var h := Frames.ReadHeader(0, s);
            var p := Frames.ParseStream(dec, max, s);
            p.packets == [] && p.ending.Fault? ==>
              || p.ending.error == MaxSizeExceeded
              || (h.size + h.remaining <= |s| && dec(h.first, s[h.size..h.size + h.remaining]) == Err(p.ending.error))
  {
    var h := Frames.ReadHeader(0, s);
    assert s[h.size..][..] == s[h.size..];
    if h.size + h.remaining <= |s| {
      assert s[h.size..][..h.remaining] == s[h.size..h.size + h.remaining];
    }
  }

  // ----- Encoded CONNECT packets

  lemma SniffsHead(n: nat, body: seq<byte>, level: byte)
    requires n <= VarInt.MAX_VARINT && Speaks(level, body) && (level == LEVEL_3 || level == LEVEL_5)
    ensures Sniff([CONNECT] + VarInt.Put(n) + body) == Ok(Some(if level == LEVEL_3 then MQTT3 else MQTT5))
  {
    hide Frames.ReadHeader, PutBytes, VarInt.Put;
    var s := [CONNECT] + VarInt.Put(n) + body;
    var size := 1 + |VarInt.Put(n)|;
    Frames.HeaderRoundTrip(0, CONNECT, n, body);
    assert s[size..size + 6] == body[..6] && s[size + 6] == body[6];
  }

  /** While an encoding arrives, sniffing asks for more bytes or gives the final answer. */
  lemma SniffsPrefixes(s: seq<byte>, k: nat)
    requires k <= |s|
    ensures Sniff(s[..k]) == Ok(None) || Sniff(s[..k]) == Sniff(s)
  {
    if Sniff(s[..k]) != Ok(None) {
      SniffStable(s[..k], s[k..]);
      assert s[..k] + s[k..] == s;
    }
  }

  /** Every CONNECT that the MQTT 3.1.1 codec encodes is recognised, however it is cut. */
  lemma RecognisesV3(c: V3Packets.Connection, k: nat, more: seq<byte>)
    requires V3Codec.Encode(V3Packets.Connect(c)).Ok? && k <= |V3Codec.Encode(V3Packets.Connect(c)).value|
    ensures var s := V3Codec.Encode(V3Packets.Connect(c)).value;
            && Sniff(s + more) == Ok(Some(MQTT3))
            && (Sniff(s[..k]) == Ok(None) || Sniff(s[..k]) == Ok(Some(MQTT3)))
  {
    hide Sniff, V3Codec.Encode, V3Codec.EncodedSize, V3Codec.ConnectFlags, V3Codec.ConnectTail;
    var p := V3Packets.Connect(c);
    V3RoundTrip.EncodeCases(p);
    var n, body := V3RoundTrip.Announced(p), V3Codec.PutBody(p);
    assert body[..6] == PutBytes(ProtocolName()) && body[6] == LEVEL_3;
    SniffsHead(n, body, LEVEL_3);
    SniffStable(V3Codec.Encode(p).value, more);
    SniffsPrefixes(V3Codec.Encode(p).value, k);
  }

  /** Every CONNECT that the MQTT 5.0 codec encodes is recognised, however it is cut. */
  lemma RecognisesV5(cfg: V5Codec.Settings, c: V5Packets.Connection, k: nat, more: seq<byte>)
    requires V5Codec.Encode(cfg, V5Packets.Connect(c)).Ok? && k <= |V5Codec.Encode(cfg, V5Packets.Connect(c)).value|
    ensures var s := V5Codec.Encode(cfg, V5Packets.Connect(c)).value;
            && Sniff(s + more) == Ok(Some(MQTT5))
            && (Sniff(s[..k]) == Ok(None) || Sniff(s[..k]) == Ok(Some(MQTT5)))
  {
    hide Sniff, V5Codec.Encode, V5Plain.ConnectSize, V5Plain.ConnectHead, V5PlainRoundTrip.ConnectBody;
    hide V5Plain.PutConnect;
    var p := V5Packets.Connect(c);
    V5Streams.EncodeCases(cfg, p);
    var n, body := V5Codec.ContentSize(p, V5Codec.Limit(cfg)), V5Codec.PutBody(p, V5Codec.Limit(cfg));
    V5HeadSpeaks(c);
    SniffsHead(n, body, LEVEL_5);
    SniffStable(V5Codec.Encode(cfg, p).value, more);
    SniffsPrefixes(V5Codec.Encode(cfg, p).value, k);
  }

  lemma V5HeadSpeaks(c: V5Packets.Connection)
    requires V5PlainRoundTrip.ConnectOk(c)
    ensures Speaks(LEVEL_5, V5PlainRoundTrip.ConnectBody(c))
  {
    hide V5Plain.ConnectEnd, V5Plain.ConnectSlots, V5Plain.ConnectFlags, V5Plain.ConnectPropLen, V5Plain.ConnectFits;
    hide Props.PutProps, Props.Writable, VarInt.Put, PutBytes, PutU16;
    assert |PutBytes(ProtocolName())| == 6 by { NameSize(); }
    assert V5PlainRoundTrip.ConnectBody(c)[..10] == V5Plain.ConnectHead(c);
  }

  lemma NameSize()
    ensures |PutBytes(ProtocolName())| == 6
  {
  }
}
