/** The language of the MQTT 5.0 decoder: which bytes it takes for which packet, and no others. */
module V5Grammar {
  import opened Wrappers
  import opened Words
  import opened Bytes
  import opened PacketTypes
  import opened V5Packets
  import opened V5Limited
  import opened V5LimitedRoundTrip
  import opened V5Codec
  import V5Plain
  import V5Streams
  import V5LimitedGrammar
  import V5PlainGrammar

  /** The bytes that stand for a packet; properties may come in any order, and the body of a ping is ignored. */
  ghost predicate Form(first: byte, src: seq<byte>, p: Packet) {
    && first == FirstByte(p)
    && if IsLimited(p) then V5LimitedGrammar.LimitedForm(p, src)
       else match p
            case Connect(c) => exists ps, end, r1, r2 :: V5PlainGrammar.ConnectForm(c, src, ps, end, r1, r2)
            case Publish(m) => exists ps :: V5PlainGrammar.PublishForm(m, src, ps)
            case Subscribe(s) => exists ps, rest :: V5PlainGrammar.SubscribeForm(s, src, ps, rest)
            case Unsubscribe(u) => exists ps :: V5PlainGrammar.UnsubscribeForm(u, src, ps)
            case _ => true
  }

  lemma FirstByteTells(first: byte, src: seq<byte>, p: Packet)
    requires DecodePacket(first, src) == Ok(p)
    ensures first == FirstByte(p)
  {
    hide GetConnAck, GetPubAck, GetSubAck, GetDisconnect, GetAuth;
    hide V5Plain.GetPublish, V5Plain.GetConnect, V5Plain.GetSubscribe, V5Plain.GetUnsubscribe;
    if PUBLISH_START <= first <= PUBLISH_END {
      V5PlainGrammar.PublishLanguage(first as int % 16, src, p.publication);
    }
  }

  lemma PlainLanguage(p: Packet, src: seq<byte>)
    requires !IsLimited(p)
    ensures DecodePacket(FirstByte(p), src) == Ok(p) <==> Form(FirstByte(p), src, p)
  {
    hide GetConnAck, GetPubAck, GetSubAck, GetDisconnect, GetAuth;
    hide V5Plain.GetPublish, V5Plain.GetConnect, V5Plain.GetSubscribe, V5Plain.GetUnsubscribe;
    hide V5PlainGrammar.ConnectForm, V5PlainGrammar.PublishForm, V5PlainGrammar.SubscribeForm;
    hide V5PlainGrammar.UnsubscribeForm, V5Plain.PublishFlags;
    match p
    case Connect(c) => V5PlainGrammar.ConnectLanguage(src, c);
    case Publish(m) =>
      V5Streams.DecodesPublish(m, src);
      assert V5Plain.PublishFlags(m) < 16 by { FlagsBelow(m); }
      V5PlainGrammar.PublishLanguage(V5Plain.PublishFlags(m), src, m);
    case Subscribe(s) => V5PlainGrammar.SubscribeLanguage(src, s);
    case Unsubscribe(u) => V5PlainGrammar.UnsubscribeLanguage(src, u);
    case _ =>
  }

  lemma FlagsBelow(m: Publication)
    ensures V5Plain.PublishFlags(m) < 16
  {
  }

  /**
    The decoder takes exactly the forms of a packet for that packet: a property block in any order, with every
    single-valued property at most once and every value of its kind, and around it the fields as they are encoded.
    Everything else is refused.
   */
  lemma AcceptsIff(first: byte, src: seq<byte>, p: Packet)
    ensures DecodePacket(first, src) == Ok(p) <==> Form(first, src, p)
  {
    hide DecodePacket, FirstByte, GetLimited, V5LimitedGrammar.LimitedForm, V5PlainGrammar.ConnectForm;
    hide V5PlainGrammar.PublishForm, V5PlainGrammar.SubscribeForm, V5PlainGrammar.UnsubscribeForm;
    if DecodePacket(first, src) == Ok(p) { FirstByteTells(first, src, p); }
    if IsLimited(p) {
      V5Streams.DecodesLimited(p, src);
      V5LimitedGrammar.LimitedLanguage(p, src);
    } else {
      PlainLanguage(p, src);
    }
  }
}
