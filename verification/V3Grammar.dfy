/** The language of the MQTT 3.1.1 decoder: which bytes it takes for which packet, and no others. */
module V3Grammar {
  import opened Wrappers
  import opened Words
  import opened Bytes
  import opened PacketTypes
  import opened V3Packets
  import opened V3Codec
  import opened V3RoundTrip

  // ----- The forms of a packet

  /** Topics, each followed by a byte whose two low bits are the quality of service; the other bits are ignored. */
  predicate FiltersForm(src: seq<byte>, fs: seq<Filter>) {
    if fs == [] then src == []
    else
      var n := 2 + |fs[0].topic|;
      && Fits(fs[0].topic) && |src| > n && src[..n] == PutBytes(fs[0].topic)
      && src[n] as int % 4 == fs[0].qos
      && FiltersForm(src[n + 1..], fs[1..])
  }

  /** Without a will the three bits that describe it are ignored. */
  predicate FlagsForm(flags: byte, c: Connection) {
    (if c.lastWill.Some? then flags as int else flags as int - flags / 8 % 8 * 8) == ConnectFlags(c)
  }

  /** What follows the password is ignored. */
  predicate ConnectForm(src: seq<byte>, c: Connection)
    requires FieldsFit(Connect(c))
  {
    && |src| >= 8 && src[..7] == ConnectHead(c)[..7] && FlagsForm(src[7], c)
    && ConnectTail(c) <= src[8..]
  }

  /** The bytes that stand for a packet. */
  predicate Form(first: byte, src: seq<byte>, p: Packet) {
    && first == FirstByte(p) && FieldsFit(p) && IdRule(p)
    && match p
       case Connect(c) => Identified(c) && ConnectForm(src, c)
       case ConnectAck(_, _) => PutBody(p) <= src
       case Subscribe(id, fs) => PutU16(id) <= src && FiltersForm(src[2..], fs)
       case PingRequest => true
       case PingResponse => true
       case Disconnect => true
       case _ => src == PutBody(p)
  }

  // ----- Lists

  lemma {:induction false} FiltersLanguage(src: seq<byte>, fs: seq<Filter>)
    ensures GetFilters(src) == Ok(fs) <==> FiltersForm(src, fs)
    decreases |src|
  {
    hide GetStr, PutBytes;
    if src == [] || fs == [] {
    } else {
      if GetFilters(src) == Ok(fs) {
        StrInverse(src);
        var Read(topic, r1) := GetStr(src).value;
        FiltersLanguage(r1[1..], fs[1..]);
        var n := 2 + |topic|;
        assert src[..n] == PutBytes(topic) && src[n..] == r1 && src[n + 1..] == r1[1..];
      }
      if FiltersForm(src, fs) {
        var n := 2 + |fs[0].topic|;
        assert src == PutBytes(fs[0].topic) + src[n..];
        StrRoundTrip(fs[0].topic, src[n..]);
        assert src[n..][1..] == src[n + 1..];
        FiltersLanguage(src[n + 1..], fs[1..]);
        assert fs == [Filter(fs[0].topic, fs[0].qos)] + fs[1..];
      }
    }
  }

  lemma {:induction false} StatusInverse(src: seq<byte>)
    requires GetStatus(src).Ok?
    ensures src == PutStatus(GetStatus(src).value)
  {
    if src != [] {
      StatusInverse(src[1..]);
      assert GetStatus(src).value[1..] == GetStatus(src[1..]).value;
    }
  }

  // ----- CONNECT

  /** The flags that a connection is read from. */
  ghost predicate FlagsSay(f: byte, c: Connection) {
    && f as int % 2 == 0
    && (f / 2 % 2 == 1 <==> c.cleanSession)
    && (f / 4 % 2 == 1 <==> c.lastWill.Some?)
    && (c.lastWill.Some? ==> f / 8 % 4 == c.lastWill.value.qos && (f / 32 % 2 == 1 <==> c.lastWill.value.retain))
    && (f / 64 % 2 == 1 <==> c.password.Some?)
    && (f / 128 == 1 <==> c.username.Some?)
  }

  lemma FlagsLanguage(f: byte, c: Connection)
    ensures FlagsForm(f, c) <==> FlagsSay(f, c)
  {
    if FlagsSay(f, c) { SayForms(f, c); }
    if FlagsForm(f, c) { SameParts(f, c); }
  }

  lemma SayForms(f: byte, c: Connection)
    requires FlagsSay(f, c)
    ensures FlagsForm(f, c)
  {
    FlagParts(f);
  }

  lemma SameParts(f: byte, c: Connection)
    requires FlagsForm(f, c)
    ensures FlagsSay(f, c)
  {
    if c.lastWill.Some? {
      FlagsRoundTrip(c);
    } else {
      FlagParts(f);
      var u, p, w, s := f / 128, f / 64 % 2, f / 4 % 2, f / 2 % 2;
      var g := 128 * u + 64 * p + 4 * w + 2 * s + f as int % 2;
      assert g == 128 * Bit(c.username.Some?) + 64 * Bit(c.password.Some?) + 2 * Bit(c.cleanSession);
      assert f as int % 2 == 0 by { assert g % 2 == f as int % 2; }
      FlagBits(u, p, 0, 0, w, s);
      FlagBits(Bit(c.username.Some?), Bit(c.password.Some?), 0, 0, 0, Bit(c.cleanSession));
    }
  }

  lemma WillInverse(flags: byte, src: seq<byte>)
    requires GetWill(flags, src).Ok?
    ensures var Read(w, rest) := GetWill(flags, src).value;
            && (w.Some? ==> Fits(w.value.topic) && Fits(w.value.message))
            && src == PutWill(w) + rest
            && (flags / 4 % 2 == 1 <==> w.Some?)
            && (w.Some? ==> flags / 8 % 4 == w.value.qos && (flags / 32 % 2 == 1 <==> w.value.retain))
  {
    hide GetStr, GetBytes, PutBytes;
    if flags / 4 % 2 == 0 {
      assert [] + src == src;
    } else {
      StrInverse(src);
      var Read(topic, r1) := GetStr(src).value;
      BytesInverse(r1);
    }
  }

  lemma TailInverse(flags: byte, src: seq<byte>)
    requires GetConnectTail(flags, src).Ok? && flags as int % 2 == 0
    ensures var c := GetConnectTail(flags, src).value;
            FieldsFit(Connect(c)) && Identified(c) && FlagsSay(flags, c) && ConnectTail(c) <= src
  {
    hide GetStr, GetU16, PutBytes, PutU16, GetWill, PutWill, GetOptStr, GetOptBytes, PutOpt;
    U16Inverse(src);
    var Read(keepAlive, r1) := GetU16(src).value;
    StrInverse(r1);
    var Read(clientId, r2) := GetStr(r1).value;
    WillInverse(flags, r2);
    var Read(will, r3) := GetWill(flags, r2).value;
    OptInverse(flags / 128 == 1, r3);
    var Read(username, r4) := GetOptStr(flags / 128 == 1, r3).value;
    OptInverse(flags / 64 % 2 == 1, r4);
    var Read(password, r5) := GetOptBytes(flags / 64 % 2 == 1, r4).value;
    var c := GetConnectTail(flags, src).value;
    assert src == ConnectTail(c) + r5;
  }

  lemma TailAccepts(flags: byte, c: Connection, rest: seq<byte>)
    requires FieldsFit(Connect(c)) && Identified(c) && FlagsSay(flags, c)
    ensures GetConnectTail(flags, ConnectTail(c) + rest) == Ok(c)
  {
    hide GetStr, GetU16, GetBytes, PutBytes, PutU16, GetWill, PutWill;
    var r4 := PutOpt(c.password) + rest;
    var r3 := PutOpt(c.username) + r4;
    var r2 := PutWill(c.lastWill) + r3;
    var r1 := PutBytes(c.clientId) + r2;
    assert ConnectTail(c) + rest == PutU16(c.keepAlive) + r1;
    U16RoundTrip(c.keepAlive, r1);
    StrRoundTrip(c.clientId, r2);
    WillRoundTrip(flags, c.lastWill, r3);
    if c.username.Some? { StrRoundTrip(c.username.value, r4); } else { assert r3 == r4; }
    if c.password.Some? { BytesRoundTrip(c.password.value, rest); }
  }

  lemma ConnectLanguage(src: seq<byte>, c: Connection)
    ensures GetConnect(src) == Ok(Connect(c)) <==> FieldsFit(Connect(c)) && Identified(c) && ConnectForm(src, c)
  {
    hide GetConnectTail, ConnectTail, FlagsForm, FlagsSay, Identified, FieldsFit, PutBytes;
    assert |PutBytes(ProtocolName())| == 6 && ConnectHead(c)[..7] == PutBytes(ProtocolName()) + [LEVEL_3];
    if GetConnect(src) == Ok(Connect(c)) {
      TailInverse(src[7], src[8..]);
      FlagsLanguage(src[7], c);
      assert src[..7] == src[..6] + [src[6]];
    }
    if FieldsFit(Connect(c)) && Identified(c) && ConnectForm(src, c) {
      FlagsLanguage(src[7], c);
      FlagsEven(src[7], c);
      var rest := src[8 + |ConnectTail(c)|..];
      assert src[8..] == ConnectTail(c) + rest;
      TailAccepts(src[7], c, rest);
      TailLong(c);
      assert src[..6] == src[..7][..6] && src[6] == src[..7][6];
    }
  }

  lemma FlagsEven(f: byte, c: Connection)
    requires FlagsSay(f, c)
    ensures f as int % 2 == 0
  {
  }

  lemma TailLong(c: Connection)
    requires FieldsFit(Connect(c))
    ensures |ConnectTail(c)| >= 4
  {
  }

  // ----- PUBLISH, acknowledgements and the rest

  lemma PublishInverse(first: byte, src: seq<byte>)
    requires PUBLISH_START <= first <= PUBLISH_END && GetPublish(first as int % 16, src).Ok?
    ensures var p := GetPublish(first as int % 16, src).value;
            p.Publish? && FieldsFit(p) && IdRule(p) && FirstByte(p) == first && src == PutBody(p)
  {
    hide GetStr, GetU16, PutBytes, PutU16;
    StrInverse(src);
    var Read(topic, r1) := GetStr(src).value;
    var flags := first as int % 16;
    assert flags == 8 * (flags / 8) + 2 * (flags / 2 % 4) + flags % 2;
    if flags / 2 % 4 == 0 {
      assert [] + r1 == r1;
    } else {
      U16Inverse(r1);
    }
  }

  lemma AckLanguage(src: seq<byte>, id: nz16)
    ensures GetAck(src) == Ok(id) <==> src == PutU16(id)
  {
    hide GetU16, PutU16;
    if GetAck(src) == Ok(id) {
      U16Inverse(src);
      assert PutU16(id) + [] == PutU16(id);
    }
    if src == PutU16(id) {
      U16RoundTrip(id, []);
      assert PutU16(id) + [] == PutU16(id);
    }
  }

  lemma ListInverse(first: byte, src: seq<byte>)
    requires first in [SUBSCRIBE, SUBACK, UNSUBSCRIBE] && DecodePacket(first, src).Ok?
    ensures Form(first, src, DecodePacket(first, src).value)
  {
    hide GetU16, PutU16, GetFilters, GetStatus, GetTopics, FiltersForm;
    U16Inverse(src);
    var Read(id, rest) := GetNz16(src).value;
    assert src[..2] == PutU16(id) && src[2..] == rest;
    if first == SUBSCRIBE {
      FiltersLanguage(rest, GetFilters(rest).value);
      FiltersFit(rest, GetFilters(rest).value);
    } else if first == SUBACK {
      StatusInverse(rest);
    } else {
      TopicsInverse(rest);
    }
  }

  lemma {:induction false} FiltersFit(src: seq<byte>, fs: seq<Filter>)
    requires FiltersForm(src, fs)
    ensures forall i :: 0 <= i < |fs| ==> Fits(fs[i].topic)
  {
    if fs != [] { FiltersFit(src[3 + |fs[0].topic|..], fs[1..]); }
  }

  lemma AcceptedForm(first: byte, src: seq<byte>, p: Packet)
    requires DecodePacket(first, src) == Ok(p)
    ensures Form(first, src, p)
  {
    hide GetConnect, ConnectForm, GetPublish, GetAck, GetFilters, GetStatus, GetTopics, PutU16, FiltersForm;
    if first == CONNECT {
      OnlyConnect(src);
      ConnectLanguage(src, p.connection);
    } else if PUBLISH_START <= first <= PUBLISH_END {
      PublishInverse(first, src);
    } else if first in [SUBSCRIBE, SUBACK, UNSUBSCRIBE] {
      ListInverse(first, src);
    } else if first in [PUBACK, PUBREC, PUBREL, PUBCOMP, UNSUBACK] {
      AckLanguage(src, p.id);
    }
  }

  lemma OnlyConnect(src: seq<byte>)
    ensures GetConnect(src).Ok? ==> GetConnect(src).value.Connect?
  {
    hide GetConnectTail;
  }

  lemma FormAccepted(first: byte, src: seq<byte>, p: Packet)
    requires Form(first, src, p)
    ensures DecodePacket(first, src) == Ok(p)
  {
    hide GetConnect, ConnectForm, GetPublish, GetAck, GetFilters, GetStatus, GetTopics, PutU16, FiltersForm, GetU16;
    match p
    case Connect(c) => ConnectLanguage(src, c);
    case Subscribe(id, fs) =>
      assert src == PutU16(id) + src[2..];
      U16RoundTrip(id, src[2..]);
      FiltersLanguage(src[2..], fs);
    case ConnectAck(_, _) =>
    case _ => BodyRoundTrip(p);
  }

  /**
    The decoder takes exactly the forms of a packet for that packet: its encoding, apart from the bits and
    trailing bytes that the forms ignore, with a client identifier where one is demanded. Everything
    else is refused.
   */
  lemma AcceptsIff(first: byte, src: seq<byte>, p: Packet)
    ensures DecodePacket(first, src) == Ok(p) <==> Form(first, src, p)
  {
    hide DecodePacket, Form;
    if DecodePacket(first, src) == Ok(p) { AcceptedForm(first, src, p); }
    if Form(first, src, p) { FormAccepted(first, src, p); }
  }
}
