/** The language of the MQTT 5.0 decoder for PUBLISH, SUBSCRIBE, UNSUBSCRIBE and CONNECT. */
module V5PlainGrammar {
  import opened Wrappers
  import opened Words
  import opened Bytes
  import opened PacketTypes
  import opened Props
  import opened PropGrammar
  import opened PropBlocks
  import opened V5Packets
  import opened V5Plain
  import opened V5LimitedGrammar
  import V5PlainRoundTrip

  // ----- PUBLISH

  function PublishHead(m: Publication): seq<byte>
    requires Fits(m.topic)
  {
    PutBytes(m.topic) + if m.packetId.Some? then PutU16(m.packetId.value) else []
  }

  function IdsRead(ps: seq<Prop>): Option<seq<nz32>> {
    if IdsOf(ps) == [] then None else Some(IdsOf(ps))
  }

  /** Topic, identifier, a block of properties in any order, payload. */
  ghost predicate PublishForm(m: Publication, src: seq<byte>, ps: seq<Prop>) {
    && Fits(m.topic) && PublishIdRule(m) && PublishHead(m) <= src
    && BlockForm(PUBLISH_TABLE, src[|PublishHead(m)|..], ps, m.payload)
    && AllFound(PublishSlots(m), ps) && m.users == UsersOf(ps) && m.subscriptionIds == IdsRead(ps)
  }

  lemma PublishFound(dup: bool, retain: bool, qos: QoS, id: Option<nz16>, topic: Str, ps: seq<Prop>, payload: seq<byte>)
    requires Allowed(PUBLISH_TABLE, [], ps)
    ensures AllFound(PublishSlots(BuildPublish(dup, retain, qos, id, topic, ps, payload)), ps)
  {
    hide Allowed, Find, UsersOf, IdsOf, FromNz16, FromNz32, FromBool, FromStr, FromBin;
    hide ToNz16, ToNz32, ToBool, ToStr, ToBin;
    FoundConverts(PUBLISH_TABLE, ps, TOPIC_ALIAS);
    FoundConverts(PUBLISH_TABLE, ps, CORR_DATA);
    FoundConverts(PUBLISH_TABLE, ps, MSG_EXPIRY_INT);
    FoundConverts(PUBLISH_TABLE, ps, CONTENT_TYPE);
    FoundConverts(PUBLISH_TABLE, ps, UTF8_PAYLOAD);
    FoundConverts(PUBLISH_TABLE, ps, RESP_TOPIC);
  }

  lemma PublishBack(m: Publication, ps: seq<Prop>)
    requires AllFound(PublishSlots(m), ps) && m.users == UsersOf(ps) && m.subscriptionIds == IdsRead(ps)
    ensures BuildPublish(m.dup, m.retain, m.qos, m.packetId, m.topic, ps, m.payload) == m
  {
    hide Find, UsersOf, IdsOf, Utf8;
    var s := PublishSlots(m);
    assert SlotFound(s[0], ps) && SlotFound(s[1], ps) && SlotFound(s[2], ps);
    assert SlotFound(s[3], ps) && SlotFound(s[4], ps) && SlotFound(s[5], ps);
  }

  lemma TailLanguage(m: Publication, src: seq<byte>, ps: seq<Prop>)
    ensures GetPublishTail(m.dup, m.retain, m.qos, m.packetId, m.topic, src) == Ok(m) ==>
              var ps := GetBlock(PUBLISH_TABLE, src).value.value;
              && BlockForm(PUBLISH_TABLE, src, ps, m.payload)
              && AllFound(PublishSlots(m), ps) && m.users == UsersOf(ps) && m.subscriptionIds == IdsRead(ps)
    ensures BlockForm(PUBLISH_TABLE, src, ps, m.payload) && AllFound(PublishSlots(m), ps) && m.users == UsersOf(ps)
            && m.subscriptionIds == IdsRead(ps) ==>
              GetPublishTail(m.dup, m.retain, m.qos, m.packetId, m.topic, src) == Ok(m)
  {
    hide GetBlock, BlockForm, PublishSlots, AllFound, Find, UsersOf, IdsOf;
    if GetPublishTail(m.dup, m.retain, m.qos, m.packetId, m.topic, src) == Ok(m) {
      var Read(qs, payload) := GetBlock(PUBLISH_TABLE, src).value;
      BlockLanguage(PUBLISH_TABLE, src, qs, payload);
      BlockAllows(PUBLISH_TABLE, src, qs, payload);
      PublishFound(m.dup, m.retain, m.qos, m.packetId, m.topic, qs, payload);
    }
    BlockLanguage(PUBLISH_TABLE, src, ps, m.payload);
    if AllFound(PublishSlots(m), ps) && m.users == UsersOf(ps) && m.subscriptionIds == IdsRead(ps) {
      PublishBack(m, ps);
    }
  }

  lemma PublishInverse(flags: nat, src: seq<byte>, m: Publication) returns (ps: seq<Prop>)
    requires flags < 16 && GetPublish(flags, src) == Ok(m)
    ensures flags == PublishFlags(m) && PublishForm(m, src, ps)
  {
    hide GetStr, GetU16, PutBytes, PutU16, BlockForm, PublishSlots, AllFound, IdsRead, UsersOf, GetBlock, BuildPublish;
    StrInverse(src);
    var Read(topic, r1) := GetStr(src).value;
    assert flags == 8 * (flags / 8) + 2 * (flags / 2 % 4) + flags % 2;
    var q := flags / 2 % 4;
    var id: Option<nz16>, r2 := None, r1;
    if q != 0 {
      U16Inverse(r1);
      id, r2 := Some(GetNz16(r1).value.value), GetNz16(r1).value.rest;
    }
    ps := GetBlock(PUBLISH_TABLE, r2).value.value;
    BuiltPublish(flags / 8 == 1, flags % 2 == 1, q, id, topic, ps, GetBlock(PUBLISH_TABLE, r2).value.rest);
    TailLanguage(m, r2, ps);
    assert src == PublishHead(m) + r2;
    assert src[|PublishHead(m)|..] == r2;
  }

  lemma BuiltPublish(dup: bool, retain: bool, qos: QoS, id: Option<nz16>, topic: Str, ps: seq<Prop>, payload: seq<byte>)
    ensures var m := BuildPublish(dup, retain, qos, id, topic, ps, payload);
            m.dup == dup && m.retain == retain && m.qos == qos && m.packetId == id && m.topic == topic
            && m.payload == payload
  {
  }

  lemma PublishAccepts(src: seq<byte>, m: Publication, ps: seq<Prop>)
    requires PublishForm(m, src, ps)
    ensures GetPublish(PublishFlags(m), src) == Ok(m)
  {
    hide GetStr, GetU16, PutBytes, PutU16, BlockForm, PublishSlots, AllFound, IdsRead, UsersOf, GetBlock, BuildPublish;
    hide GetPublishTail;
    var f, rest := PublishFlags(m), src[|PublishHead(m)|..];
    assert f / 8 == Bit(m.dup) && f / 2 % 4 == m.qos && f % 2 == Bit(m.retain);
    TailLanguage(m, rest, ps);
    if m.packetId.Some? {
      assert src == PutBytes(m.topic) + (PutU16(m.packetId.value) + rest);
      StrRoundTrip(m.topic, PutU16(m.packetId.value) + rest);
      U16RoundTrip(m.packetId.value, rest);
    } else {
      assert src == PutBytes(m.topic) + rest;
      StrRoundTrip(m.topic, rest);
    }
  }

  lemma PublishLanguage(flags: nat, src: seq<byte>, m: Publication)
    requires flags < 16
    ensures GetPublish(flags, src) == Ok(m) <==> flags == PublishFlags(m) && exists ps :: PublishForm(m, src, ps)
  {
    hide GetPublish, PublishForm;
    if GetPublish(flags, src) == Ok(m) {
      var ps := PublishInverse(flags, src, m);
    }
    if flags == PublishFlags(m) && exists ps :: PublishForm(m, src, ps) {
      var ps :| PublishForm(m, src, ps);
      PublishAccepts(src, m, ps);
    }
  }

  // ----- SUBSCRIBE and UNSUBSCRIBE

  /** Topics, each followed by its options; the two high bits of the options are ignored. */
  predicate FiltersForm(src: seq<byte>, fs: seq<Filter>) {
    if fs == [] then src == []
    else
      var n := 2 + |fs[0].topic|;
      && Fits(fs[0].topic) && |src| > n && src[..n] == PutBytes(fs[0].topic)
      && src[n] as int % 64 == FilterByte(fs[0])
      && FiltersForm(src[n + 1..], fs[1..])
  }

  lemma OptionParts(v: byte)
    ensures v as int % 64 == v as int % 4 + 4 * (v / 4 % 2) + 8 * (v / 8 % 2) + 16 * (v / 16 % 4)
  {
    assert v / 4 == 2 * (v / 8) + v / 4 % 2;
    assert v / 8 == 2 * (v / 16) + v / 8 % 2;
    assert v / 16 == 4 * (v / 64) + v / 16 % 4;
  }

  /** Four numbers of two, one, one and two bits are determined by their sum. */
  lemma PartsUnique(q: nat, l: nat, r: nat, h: nat, q': nat, l': nat, r': nat, h': nat)
    requires q < 4 && l < 2 && r < 2 && q' < 4 && l' < 2 && r' < 2
    requires q + 4 * l + 8 * r + 16 * h == q' + 4 * l' + 8 * r' + 16 * h'
    ensures q == q' && l == l' && r == r' && h == h'
  {
  }

  lemma OptionsLanguage(v: byte, f: Filter)
    ensures v as int % 64 == FilterByte(f) <==>
            && v as int % 4 == f.qos && (v / 4 % 2 == 1 <==> f.noLocal) && (v / 8 % 2 == 1 <==> f.retainAsPublished)
            && v / 16 % 4 == f.retainHandling
  {
    OptionParts(v);
    if v as int % 64 == FilterByte(f) {
      PartsUnique(v as int % 4, v / 4 % 2, v / 8 % 2, v / 16 % 4,
                  f.qos, Bit(f.noLocal), Bit(f.retainAsPublished), f.retainHandling);
    }
  }

  lemma {:induction false} FiltersLanguage(src: seq<byte>, fs: seq<Filter>)
    ensures GetFilters(src) == Ok(fs) <==> FiltersForm(src, fs)
    decreases |src|
  {
    hide GetStr, PutBytes, FilterByte;
    if src != [] && fs != [] {
      if GetFilters(src) == Ok(fs) {
        StrInverse(src);
        var Read(topic, r1) := GetStr(src).value;
        FiltersLanguage(r1[1..], fs[1..]);
        OptionsLanguage(r1[0], fs[0]);
        var n := 2 + |topic|;
        assert src[..n] == PutBytes(topic) && src[n..] == r1 && src[n + 1..] == r1[1..];
      }
      if FiltersForm(src, fs) {
        var f, n := fs[0], 2 + |fs[0].topic|;
        assert src == PutBytes(f.topic) + src[n..];
        StrRoundTrip(f.topic, src[n..]);
        OptionsLanguage(src[n], f);
        assert src[n..][1..] == src[n + 1..];
        FiltersLanguage(src[n + 1..], fs[1..]);
        assert fs == [f] + fs[1..];
      }
    }
  }

  /** Identifier, a block of properties in any order, filters. */
  ghost predicate SubscribeForm(s: Subscription, src: seq<byte>, ps: seq<Prop>, rest: seq<byte>) {
    && PutU16(s.id) <= src && BlockForm(SUBSCRIBE_TABLE, src[2..], ps, rest) && FiltersForm(rest, s.filters)
    && s.users == UsersOf(ps) && s.subscriptionId == if IdsOf(ps) == [] then None else Some(IdsOf(ps)[0])
  }

  lemma SubscribeLanguage(src: seq<byte>, s: Subscription)
    ensures GetSubscribe(src) == Ok(s) <==> exists ps, rest :: SubscribeForm(s, src, ps, rest)
  {
    hide GetU16, PutU16, GetBlock, BlockForm, GetFilters, FiltersForm, UsersOf, IdsOf;
    if GetSubscribe(src) == Ok(s) {
      U16Inverse(src);
      var r1 := GetNz16(src).value.rest;
      var Read(ps, r2) := GetBlock(SUBSCRIBE_TABLE, r1).value;
      BlockLanguage(SUBSCRIBE_TABLE, r1, ps, r2);
      FiltersLanguage(r2, s.filters);
      assert src[2..] == r1;
      assert SubscribeForm(s, src, ps, r2);
    }
    if exists ps, rest :: SubscribeForm(s, src, ps, rest) {
      var ps, rest :| SubscribeForm(s, src, ps, rest);
      assert src == PutU16(s.id) + src[2..];
      U16RoundTrip(s.id, src[2..]);
      BlockLanguage(SUBSCRIBE_TABLE, src[2..], ps, rest);
      FiltersLanguage(rest, s.filters);
    }
  }

  /** Identifier, a block of user properties, topics. */
  ghost predicate UnsubscribeForm(u: Unsubscription, src: seq<byte>, ps: seq<Prop>) {
    && PutU16(u.id) <= src && TopicsFit(u.topics)
    && BlockForm(UNSUBSCRIBE_TABLE, src[2..], ps, PutTopics(u.topics)) && u.users == UsersOf(ps)
  }

  lemma UnsubscribeLanguage(src: seq<byte>, u: Unsubscription)
    ensures GetUnsubscribe(src) == Ok(u) <==> exists ps :: UnsubscribeForm(u, src, ps)
  {
    hide GetU16, PutU16, GetBlock, BlockForm, GetTopics, UsersOf;
    if GetUnsubscribe(src) == Ok(u) {
      U16Inverse(src);
      var r1 := GetNz16(src).value.rest;
      var Read(ps, r2) := GetBlock(UNSUBSCRIBE_TABLE, r1).value;
      BlockLanguage(UNSUBSCRIBE_TABLE, r1, ps, r2);
      TopicsInverse(r2);
      assert src[2..] == r1;
      assert UnsubscribeForm(u, src, ps);
    }
    if exists ps :: UnsubscribeForm(u, src, ps) {
      var ps :| UnsubscribeForm(u, src, ps);
      assert src == PutU16(u.id) + src[2..];
      U16RoundTrip(u.id, src[2..]);
      BlockLanguage(UNSUBSCRIBE_TABLE, src[2..], ps, PutTopics(u.topics));
      TopicsRoundTrip(u.topics);
    }
  }

  // ----- CONNECT

  /** Without a will the three bits that describe it are ignored. */
  predicate FlagsForm(flags: byte, c: Connection) {
    (if c.will.Some? then flags as int else flags as int - flags / 8 % 8 * 8) == ConnectFlags(c)
  }

  lemma FlagsLanguage(f: byte, c: Connection)
    ensures FlagsForm(f, c) <==> V5PlainRoundTrip.FlagsSay(f, c)
  {
    if V5PlainRoundTrip.FlagsSay(f, c) { SayForms(f, c); }
    if FlagsForm(f, c) { FormSays(f, c); }
  }

  lemma SayForms(f: byte, c: Connection)
    requires V5PlainRoundTrip.FlagsSay(f, c)
    ensures FlagsForm(f, c)
  {
    FlagParts(f);
  }

  lemma FormSays(f: byte, c: Connection)
    requires FlagsForm(f, c)
    ensures V5PlainRoundTrip.FlagsSay(f, c)
  {
    if c.will.Some? {
      V5PlainRoundTrip.FlagsRoundTrip(c);
    } else {
      FlagParts(f);
      var u, p, w, s := f / 128, f / 64 % 2, f / 4 % 2, f / 2 % 2;
      var g := 128 * u + 64 * p + 4 * w + 2 * s + f as int % 2;
      assert g == 128 * Bit(c.username.Some?) + 64 * Bit(c.password.Some?) + 2 * Bit(c.cleanStart);
      assert f as int % 2 == 0 by { assert g % 2 == f as int % 2; }
      FlagBits(u, p, 0, 0, w, s);
      FlagBits(Bit(c.username.Some?), Bit(c.password.Some?), 0, 0, 0, Bit(c.cleanStart));
    }
  }

  /** A block of properties in any order, topic and message. */
  ghost predicate WillForm(w: Will, src: seq<byte>, ps: seq<Prop>, text: seq<byte>, rest: seq<byte>) {
    && BlockForm(WILL_TABLE, src, ps, text) && AllFound(WillSlots(w), ps) && w.users == UsersOf(ps)
    && Fits(w.topic) && Fits(w.message) && text == PutBytes(w.topic) + (PutBytes(w.message) + rest)
  }

  lemma WillFound(qos: QoS, retain: bool, topic: Str, message: seq<byte>, ps: seq<Prop>)
    requires Allowed(WILL_TABLE, [], ps)
    ensures AllFound(WillSlots(BuildWill(qos, retain, topic, message, ps)), ps)
  {
    hide Allowed, Find, UsersOf, From32, FromNz32, FromBool, FromStr, FromBin, To32, ToNz32, ToBool, ToStr, ToBin;
    FoundConverts(WILL_TABLE, ps, WILL_DELAY_INT);
    FoundConverts(WILL_TABLE, ps, CORR_DATA);
    FoundConverts(WILL_TABLE, ps, MSG_EXPIRY_INT);
    FoundConverts(WILL_TABLE, ps, CONTENT_TYPE);
    FoundConverts(WILL_TABLE, ps, UTF8_PAYLOAD);
    FoundConverts(WILL_TABLE, ps, RESP_TOPIC);
  }

  lemma WillBack(w: Will, ps: seq<Prop>)
    requires AllFound(WillSlots(w), ps) && w.users == UsersOf(ps)
    ensures BuildWill(w.qos, w.retain, w.topic, w.message, ps) == w
  {
    hide Find, UsersOf, Utf8;
    var s := WillSlots(w);
    assert SlotFound(s[0], ps) && SlotFound(s[1], ps) && SlotFound(s[2], ps);
    assert SlotFound(s[3], ps) && SlotFound(s[4], ps) && SlotFound(s[5], ps);
  }

  /** The will is there exactly if its flag is set, with the quality and retain flag of its bits. */
  predicate WillFlags(flags: byte, w: Option<Will>) {
    && (flags / 4 % 2 == 1 <==> w.Some?)
    && (w.Some? ==> flags / 8 % 4 == w.value.qos && (flags / 32 % 2 == 1 <==> w.value.retain))
  }

  ghost predicate OptWillForm(w: Option<Will>, src: seq<byte>, rest: seq<byte>) {
    if w.None? then src == rest else exists ps, text :: WillForm(w.value, src, ps, text, rest)
  }

  lemma WillLanguage(flags: byte, src: seq<byte>, w: Option<Will>, rest: seq<byte>)
    ensures GetWill(flags, src) == Ok(Read(w, rest)) <==> WillFlags(flags, w) && OptWillForm(w, src, rest)
  {
    hide GetBlock, BlockForm, GetStr, GetBytes, PutBytes, WillSlots, AllFound, UsersOf, Find;
    if GetWill(flags, src) == Ok(Read(w, rest)) && w.Some? {
      WillInverse(flags, src, w.value, rest);
    }
    if WillFlags(flags, w) && OptWillForm(w, src, rest) && w.Some? {
      var ps, text :| WillForm(w.value, src, ps, text, rest);
      BlockLanguage(WILL_TABLE, src, ps, text);
      StrRoundTrip(w.value.topic, PutBytes(w.value.message) + rest);
      BytesRoundTrip(w.value.message, rest);
      WillBack(w.value, ps);
    }
  }

  lemma WillInverse(flags: byte, src: seq<byte>, w: Will, rest: seq<byte>)
    requires GetWill(flags, src) == Ok(Read(Some(w), rest))
    ensures WillFlags(flags, Some(w)) && OptWillForm(Some(w), src, rest)
  {
    hide GetBlock, BlockForm, GetStr, GetBytes, PutBytes, WillSlots, AllFound, UsersOf, Find;
    var Read(ps, r1) := GetBlock(WILL_TABLE, src).value;
    BlockLanguage(WILL_TABLE, src, ps, r1);
    BlockAllows(WILL_TABLE, src, ps, r1);
    StrInverse(r1);
    var Read(topic, r2) := GetStr(r1).value;
    BytesInverse(r2);
    WillFound(flags / 8 % 4, flags / 32 % 2 == 1, topic, GetBytes(r2).value.value, ps);
    assert WillForm(w, src, ps, r1, rest);
  }

  /** Client identifier, will, user name and password; what follows is ignored. */
  ghost predicate EndForm(c: Connection, src: seq<byte>, r1: seq<byte>, r2: seq<byte>) {
    && Fits(c.clientId) && V5PlainRoundTrip.Identified(c) && OptFits(c.username) && OptFits(c.password)
    && src == PutBytes(c.clientId) + r1 && OptWillForm(c.will, r1, r2)
    && PutOpt(c.username) + PutOpt(c.password) <= r2
  }

  /** Name, level, flags, keep-alive, a block of properties in any order, and the end. */
  ghost predicate ConnectForm(c: Connection, src: seq<byte>, ps: seq<Prop>, end: seq<byte>, r1: seq<byte>,
                              r2: seq<byte>) {
    && |src| >= 10 && src[..7] == ConnectHead(c)[..7] && FlagsForm(src[7], c) && src[8..10] == PutU16(c.keepAlive)
    && BlockForm(CONNECT_TABLE, src[10..], ps, end) && AllFound(ConnectSlots(c), ps) && c.users == UsersOf(ps)
    && EndForm(c, end, r1, r2)
  }

  lemma ConnectBack(c: Connection, ps: seq<Prop>, f: byte)
    requires AllFound(ConnectSlots(c), ps) && c.users == UsersOf(ps) && (f / 2 % 2 == 1 <==> c.cleanStart)
    ensures BuildConnect(f, c.keepAlive, ps, c.clientId, c.will, c.username, c.password) == c
  {
    hide Find, UsersOf, Utf8;
    var s := ConnectSlots(c);
    assert SlotFound(s[0], ps) && SlotFound(s[1], ps) && SlotFound(s[2], ps) && SlotFound(s[3], ps);
    assert SlotFound(s[4], ps) && SlotFound(s[5], ps) && SlotFound(s[6], ps) && SlotFound(s[7], ps);
  }

  lemma ConnectFound(f: byte, keepAlive: u16, ps: seq<Prop>, clientId: Str, will: Option<Will>, username: Option<Str>,
                     password: Option<seq<byte>>)
    requires Allowed(CONNECT_TABLE, [], ps)
    ensures AllFound(ConnectSlots(BuildConnect(f, keepAlive, ps, clientId, will, username, password)), ps)
  {
    hide Allowed, Find, UsersOf;
    FoundConverts(CONNECT_TABLE, ps, SESS_EXPIRY_INT);
    FoundConverts(CONNECT_TABLE, ps, AUTH_METHOD);
    FoundConverts(CONNECT_TABLE, ps, AUTH_DATA);
    FoundConverts(CONNECT_TABLE, ps, REQ_PROB_INFO);
    FoundConverts(CONNECT_TABLE, ps, REQ_RESP_INFO);
    FoundConverts(CONNECT_TABLE, ps, RECEIVE_MAX);
    FoundConverts(CONNECT_TABLE, ps, MAX_PACKET_SIZE);
    FoundConverts(CONNECT_TABLE, ps, TOPIC_ALIAS_MAX);
  }

  /** What the end of the packet says, and what the connection is built from. */
  lemma EndInverse(flags: byte, keepAlive: u16, ps: seq<Prop>, src: seq<byte>, c: Connection)
    returns (r1: seq<byte>, r2: seq<byte>)
    requires GetConnectEnd(flags, keepAlive, ps, src) == Ok(c) && flags as int % 2 == 0
    ensures EndForm(c, src, r1, r2) && V5PlainRoundTrip.FlagsSay(flags, c) && c.keepAlive == keepAlive
    ensures c == BuildConnect(flags, keepAlive, ps, c.clientId, c.will, c.username, c.password)
    ensures c.users == UsersOf(ps)
  {
    hide GetStr, PutBytes, GetWill, OptWillForm, GetOptStr, GetOptBytes, PutOpt, UsersOf, Find;
    StrInverse(src);
    var clientId := GetStr(src).value.value;
    r1 := GetStr(src).value.rest;
    var will := GetWill(flags, r1).value.value;
    r2 := GetWill(flags, r1).value.rest;
    WillLanguage(flags, r1, will, r2);
    OptInverse(flags / 128 == 1, r2);
    var Read(username, r3) := GetOptStr(flags / 128 == 1, r2).value;
    OptInverse(flags / 64 % 2 == 1, r3);
    var Read(password, r4) := GetOptBytes(flags / 64 % 2 == 1, r3).value;
    assert r2 == PutOpt(username) + PutOpt(password) + r4;
  }

  lemma EndAccepts(flags: byte, ps: seq<Prop>, src: seq<byte>, c: Connection, r1: seq<byte>, r2: seq<byte>)
    requires EndForm(c, src, r1, r2) && V5PlainRoundTrip.FlagsSay(flags, c)
    ensures GetConnectEnd(flags, c.keepAlive, ps, src)
         == Ok(BuildConnect(flags, c.keepAlive, ps, c.clientId, c.will, c.username, c.password))
  {
    hide GetStr, GetBytes, PutBytes, GetWill, OptWillForm, BuildConnect;
    StrRoundTrip(c.clientId, r1);
    WillLanguage(flags, r1, c.will, r2);
    var rest := r2[|PutOpt(c.username) + PutOpt(c.password)|..];
    var r3 := PutOpt(c.password) + rest;
    assert r2 == PutOpt(c.username) + r3;
    if c.username.Some? { StrRoundTrip(c.username.value, r3); } else { assert r2 == r3; }
    if c.password.Some? { BytesRoundTrip(c.password.value, rest); }
  }

  lemma ConnectInverse(src: seq<byte>, c: Connection)
    returns (ps: seq<Prop>, end: seq<byte>, r1: seq<byte>, r2: seq<byte>)
    requires GetConnect(src) == Ok(c)
    ensures ConnectForm(c, src, ps, end, r1, r2)
  {
    hide GetConnectEnd, GetBlock, BlockForm, EndForm, FlagsForm, ConnectSlots, AllFound, UsersOf, PutBytes, Allowed;
    hide V5PlainRoundTrip.FlagsSay, BuildConnect;
    ps := GetBlock(CONNECT_TABLE, src[10..]).value.value;
    end := GetBlock(CONNECT_TABLE, src[10..]).value.rest;
    var keepAlive := src[8] as int * 256 + src[9];
    r1, r2 := EndInverse(src[7], keepAlive, ps, end, c);
    BlockLanguage(CONNECT_TABLE, src[10..], ps, end);
    BlockAllows(CONNECT_TABLE, src[10..], ps, end);
    ConnectFound(src[7], keepAlive, ps, c.clientId, c.will, c.username, c.password);
    FlagsLanguage(src[7], c);
    HeadBytes(c, src);
    assert src[8..10] == PutU16(keepAlive);
  }

  lemma HeadBytes(c: Connection, src: seq<byte>)
    requires |src| >= 10
    ensures src[..7] == ConnectHead(c)[..7] <==> src[..6] == PutBytes(ProtocolName()) && src[6] == LEVEL_5
    ensures |PutBytes(ProtocolName())| == 6
  {
    hide PutBytes, ConnectFlags;
    assert |PutBytes(ProtocolName())| == 6;
    assert ConnectHead(c)[..7] == PutBytes(ProtocolName()) + [LEVEL_5];
    assert src[..7] == src[..6] + [src[6]];
  }

  lemma ConnectAccepts(src: seq<byte>, c: Connection, ps: seq<Prop>, end: seq<byte>, r1: seq<byte>, r2: seq<byte>)
    requires ConnectForm(c, src, ps, end, r1, r2)
    ensures GetConnect(src) == Ok(c)
  {
    hide GetConnectEnd, GetBlock, BlockForm, EndForm, FlagsForm, ConnectSlots, AllFound, UsersOf, PutBytes;
    hide BuildConnect;
    HeadBytes(c, src);
    FlagsLanguage(src[7], c);
    BlockLanguage(CONNECT_TABLE, src[10..], ps, end);
    EndAccepts(src[7], ps, end, c, r1, r2);
    ConnectBack(c, ps, src[7]);
    assert src[8] == PutU16(c.keepAlive)[0] && src[9] == PutU16(c.keepAlive)[1];
  }

  lemma ConnectLanguage(src: seq<byte>, c: Connection)
    ensures GetConnect(src) == Ok(c) <==> exists ps, end, r1, r2 :: ConnectForm(c, src, ps, end, r1, r2)
  {
    hide GetConnect, ConnectForm;
    if GetConnect(src) == Ok(c) {
      var ps, end, r1, r2 := ConnectInverse(src, c);
    }
    if exists ps, end, r1, r2 :: ConnectForm(c, src, ps, end, r1, r2) {
      var ps, end, r1, r2 :| ConnectForm(c, src, ps, end, r1, r2);
      ConnectAccepts(src, c, ps, end, r1, r2);
    }
  }
}
