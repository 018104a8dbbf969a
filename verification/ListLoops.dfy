/**
  The loops over lists in the codecs, as the source runs them: decoders that consume a buffer
  and push to a vector, encoders that append to one.
 */
module ListLoops {
  import opened Wrappers
  import opened Bytes
  import opened PacketTypes
  import Props
  import V3Packets
  import V3Codec
  import V5Packets
  import V5Plain

  /** The result of a decoder that has already pushed `acc`. */
  function Onto<T>(acc: seq<T>, r: Result<seq<T>, DecodeError>): Result<seq<T>, DecodeError> {
    match r
    case Err(e) => Err(e)
    case Ok(xs) => Ok(acc + xs)
  }

  lemma OntoPush<T>(acc: seq<T>, x: T, r: Result<seq<T>, DecodeError>)
    ensures Onto(acc, Onto([x], r)) == Onto(acc + [x], r)
  {
    if r.Ok? { assert acc + ([x] + r.value) == acc + [x] + r.value; }
  }

  lemma OntoNone<T>(acc: seq<T>, r: Result<seq<T>, DecodeError>)
    ensures Onto([], r) == r && Onto(acc, Ok([])) == Ok(acc)
  {
    if r.Ok? { assert [] + r.value == r.value; }
    assert acc + [] == acc;
  }

  // ----- MQTT 3.1.1

  method ReadFiltersV3(src: seq<byte>) returns (r: Result<seq<V3Packets.Filter>, DecodeError>)
    ensures r == V3Codec.GetFilters(src)
  {
    hide GetStr;
    var fs, cur := [], src;
    OntoNone(fs, V3Codec.GetFilters(src));
    while cur != []
      invariant Onto(fs, V3Codec.GetFilters(cur)) == V3Codec.GetFilters(src)
      decreases |cur|
    {
      var t := GetStr(cur);
      if t.Err? {
        return Err(t.error);
      }
      var Read(topic, rest) := t.value;
      if |rest| < 1 {
        return Err(InvalidLength);
      }
      if rest[0] % 4 > 2 {
        return Err(MalformedPacket);
      }
      var f := V3Packets.Filter(topic, rest[0] % 4);
      OntoPush(fs, f, V3Codec.GetFilters(rest[1..]));
      fs, cur := fs + [f], rest[1..];
    }
    OntoNone(fs, Ok([]));
    return Ok(fs);
  }

  method ReadTopics(src: seq<byte>) returns (r: Result<seq<Str>, DecodeError>)
    ensures r == GetTopics(src)
  {
    hide GetStr;
    var ts, cur := [], src;
    OntoNone(ts, GetTopics(src));
    while cur != []
      invariant Onto(ts, GetTopics(cur)) == GetTopics(src)
      decreases |cur|
    {
      var t := GetStr(cur);
      if t.Err? {
        return Err(t.error);
      }
      OntoPush(ts, t.value.value, GetTopics(t.value.rest));
      ts, cur := ts + [t.value.value], t.value.rest;
    }
    OntoNone(ts, Ok([]));
    return Ok(ts);
  }

  method ReadStatusV3(src: seq<byte>) returns (r: Result<seq<V3Packets.ReturnCode>, DecodeError>)
    ensures r == V3Codec.GetStatus(src)
  {
    var status := [];
    OntoNone(status, V3Codec.GetStatus(src));
    for i := 0 to |src|
      invariant Onto(status, V3Codec.GetStatus(src[i..])) == V3Codec.GetStatus(src)
    {
      assert src[i..][0] == src[i] && src[i..][1..] == src[i + 1..];
      if src[i] != 0x80 && src[i] > 2 {
        return Err(MalformedPacket);
      }
      var code := if src[i] == 0x80 then V3Packets.Failure else V3Packets.Success(src[i]);
      OntoPush(status, code, V3Codec.GetStatus(src[i + 1..]));
      status := status + [code];
    }
    OntoNone(status, Ok([]));
    return Ok(status);
  }

  method DecodeSubscribeV3(src: seq<byte>) returns (r: Result<V3Packets.Packet, DecodeError>)
    ensures r == V3Codec.DecodePacket(SUBSCRIBE, src)
  {
    hide V3Codec.GetFilters;
    var id := GetNz16(src);
    if id.Err? {
      return Err(id.error);
    }
    var fs := ReadFiltersV3(id.value.rest);
    if fs.Err? {
      return Err(fs.error);
    }
    return Ok(V3Packets.Subscribe(id.value.value, fs.value));
  }

  method DecodeUnsubscribeV3(src: seq<byte>) returns (r: Result<V3Packets.Packet, DecodeError>)
    ensures r == V3Codec.DecodePacket(UNSUBSCRIBE, src)
  {
    hide GetTopics;
    var id := GetNz16(src);
    if id.Err? {
      return Err(id.error);
    }
    var ts := ReadTopics(id.value.rest);
    if ts.Err? {
      return Err(ts.error);
    }
    return Ok(V3Packets.Unsubscribe(id.value.value, ts.value));
  }

  method DecodeSubscribeAckV3(src: seq<byte>) returns (r: Result<V3Packets.Packet, DecodeError>)
    ensures r == V3Codec.DecodePacket(SUBACK, src)
  {
    hide V3Codec.GetStatus;
    var id := GetNz16(src);
    if id.Err? {
      return Err(id.error);
    }
    var status := ReadStatusV3(id.value.rest);
    if status.Err? {
      return Err(status.error);
    }
    return Ok(V3Packets.SubscribeAck(id.value.value, status.value));
  }

  // ----- MQTT 5.0

  method ReadFiltersV5(src: seq<byte>) returns (r: Result<seq<V5Packets.Filter>, DecodeError>)
    ensures r == V5Plain.GetFilters(src)
  {
    hide GetStr;
    var fs, cur := [], src;
    OntoNone(fs, V5Plain.GetFilters(src));
    while cur != []
      invariant Onto(fs, V5Plain.GetFilters(cur)) == V5Plain.GetFilters(src)
      decreases |cur|
    {
      var t := GetStr(cur);
      if t.Err? {
        return Err(t.error);
      }
      var Read(topic, rest) := t.value;
      if rest == [] {
        return Err(InvalidLength);
      }
      var v := rest[0] as int;
      if v % 4 > 2 || v / 16 % 4 > 2 {
        return Err(MalformedPacket);
      }
      var f := V5Packets.Filter(topic, v % 4, v / 4 % 2 == 1, v / 8 % 2 == 1, v / 16 % 4);
      OntoPush(fs, f, V5Plain.GetFilters(rest[1..]));
      fs, cur := fs + [f], rest[1..];
    }
    OntoNone(fs, Ok([]));
    return Ok(fs);
  }

  /** SUBSCRIBE: the identifier, one property block, then filters to the end of the packet. */
  method DecodeSubscribeV5(src: seq<byte>) returns (r: Result<V5Packets.Subscription, DecodeError>)
    ensures r == V5Plain.GetSubscribe(src)
  {
    hide V5Plain.GetFilters, Props.GetBlock, Props.IdsOf, Props.UsersOf;
    var id := GetNz16(src);
    if id.Err? {
      return Err(id.error);
    }
    var block := Props.GetBlock(V5Plain.SUBSCRIBE_TABLE, id.value.rest);
    if block.Err? {
      return Err(block.error);
    }
    var ps := block.value.value;
    var fs := ReadFiltersV5(block.value.rest);
    if fs.Err? {
      return Err(fs.error);
    }
    var ids := Props.IdsOf(ps);
    var first := if ids == [] then None else Some(ids[0]);
    return Ok(V5Packets.Subscription(id.value.value, first, Props.UsersOf(ps), fs.value));
  }

  /** Appends every filter with its options byte; the first text that is too long is an error. */
  method WriteFiltersV5(fs: seq<V5Packets.Filter>, buf: seq<byte>) returns (r: Result<seq<byte>, EncodeError>)
    ensures r == if V5Plain.FiltersFit(fs) then Ok(buf + V5Plain.PutFilters(fs)) else Err(EncInvalidLength)
  {
    hide PutBytes, V5Plain.FilterByte;
    var out := buf;
    for i := 0 to |fs|
      invariant V5Plain.FiltersFit(fs[..i]) && out == buf + V5Plain.PutFilters(fs[..i])
    {
      if !Fits(fs[i].topic) {
        return Err(EncInvalidLength);
      }
      assert fs[..i + 1] == fs[..i] + [fs[i]];
      PutFiltersAppend(fs[..i], fs[i]);
      out := out + (PutBytes(fs[i].topic) + [V5Plain.FilterByte(fs[i])]);
    }
    assert fs[..|fs|] == fs;
    return Ok(out);
  }

  lemma {:induction false} PutFiltersAppend(fs: seq<V5Packets.Filter>, f: V5Packets.Filter)
    requires V5Plain.FiltersFit(fs) && Fits(f.topic)
    ensures V5Plain.FiltersFit(fs + [f])
    ensures V5Plain.PutFilters(fs + [f]) == V5Plain.PutFilters(fs) + (PutBytes(f.topic) + [V5Plain.FilterByte(f)])
  {
    hide PutBytes, V5Plain.FilterByte;
    if fs == [] {
      assert (fs + [f])[1..] == [];
      assert PutBytes(f.topic) + ([V5Plain.FilterByte(f)] + []) == [] + (PutBytes(f.topic) + [V5Plain.FilterByte(f)]);
    } else {
      PutFiltersAppend(fs[1..], f);
      assert (fs + [f])[1..] == fs[1..] + [f] && (fs + [f])[0] == fs[0];
      var h, o, x := PutBytes(fs[0].topic), [V5Plain.FilterByte(fs[0])], V5Plain.PutFilters(fs[1..]);
      var y := PutBytes(f.topic) + [V5Plain.FilterByte(f)];
      assert V5Plain.PutFilters(fs + [f]) == h + (o + (x + y));
      assert h + (o + (x + y)) == h + (o + x) + y;
    }
  }
}
