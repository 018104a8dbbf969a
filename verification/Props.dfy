/**
  Property blocks of MQTT 5.0 packets: reading them in any order (src/utils.rs:62-138, the
  property loops of src/v5/codec/packet/) and writing them (src/v5/codec/encode.rs:173-211).
  A packet's property loop is the one loop below with the table of the properties it accepts.
 */
module Props {
  import opened Wrappers
  import opened Words
  import opened Bytes
  import VarInt

  // Property identifiers
  const UTF8_PAYLOAD: byte := 0x01
  const MSG_EXPIRY_INT: byte := 0x02
  const CONTENT_TYPE: byte := 0x03
  const RESP_TOPIC: byte := 0x08
  const CORR_DATA: byte := 0x09
  const SUB_ID: byte := 0x0B
  const SESS_EXPIRY_INT: byte := 0x11
  const ASSND_CLIENT_ID: byte := 0x12
  const SERVER_KA: byte := 0x13
  const AUTH_METHOD: byte := 0x15
  const AUTH_DATA: byte := 0x16
  const REQ_PROB_INFO: byte := 0x17
  const WILL_DELAY_INT: byte := 0x18
  const REQ_RESP_INFO: byte := 0x19
  const RESP_INFO: byte := 0x1A
  const SERVER_REF: byte := 0x1C
  const REASON_STRING: byte := 0x1F
  const RECEIVE_MAX: byte := 0x21
  const TOPIC_ALIAS_MAX: byte := 0x22
  const TOPIC_ALIAS: byte := 0x23
  const MAX_QOS: byte := 0x24
  const RETAIN_AVAIL: byte := 0x25
  const USER: byte := 0x26
  const MAX_PACKET_SIZE: byte := 0x27
  const WILDCARD_SUB_AVAIL: byte := 0x28
  const SUB_IDS_AVAIL: byte := 0x29
  const SHARED_SUB_AVAIL: byte := 0x2A

  /** The type of a property's value, and for the last three how often it may appear. */
  datatype Kind = KBool | KQos | KU16 | KNz16 | KU32 | KNz32 | KStr | KBin | KId | KIds | KUser

  datatype Val =
    | VBool(b: bool)
    | VByte(qos: byte)
    | VU16(n16: u16)
    | VU32(n32: u32)
    | VVar(n: nz32)
    | VStr(s: Str)
    | VBin(bin: seq<byte>)
    | VPair(key: Str, value: Str)

  datatype Prop = Prop(id: byte, val: Val)

  type Table = map<byte, Kind>

  /** Properties that may be repeated. */
  predicate Repeats(k: Kind) {
    k.KUser? || k.KIds?
  }

  // ----- Reading

  function GetVal(k: Kind, src: seq<byte>): (r: Decoded<Val>)
    ensures r.Ok? ==> |r.value.rest| <= |src|
  {
    match k
    case KBool => (match GetBool(src) case Err(e) => Err(e) case Ok(Read(v, rest)) => Ok(Read(VBool(v), rest)))
    case KQos =>
      (match GetU8(src)
       case Err(e) => Err(e)
       case Ok(Read(v, rest)) => if v > 2 then Err(MalformedPacket) else Ok(Read(VByte(v), rest)))
    case KU16 => (match GetU16(src) case Err(e) => Err(e) case Ok(Read(v, rest)) => Ok(Read(VU16(v), rest)))
    case KNz16 => (match GetNz16(src) case Err(e) => Err(e) case Ok(Read(v, rest)) => Ok(Read(VU16(v), rest)))
    case KU32 => (match GetU32(src) case Err(e) => Err(e) case Ok(Read(v, rest)) => Ok(Read(VU32(v), rest)))
    case KNz32 => (match GetNz32(src) case Err(e) => Err(e) case Ok(Read(v, rest)) => Ok(Read(VU32(v), rest)))
    case KStr => (match GetStr(src) case Err(e) => Err(e) case Ok(Read(v, rest)) => Ok(Read(VStr(v), rest)))
    case KBin => (match GetBytes(src) case Err(e) => Err(e) case Ok(Read(v, rest)) => Ok(Read(VBin(v), rest)))
    case KId => GetId(src)
    case KIds => GetId(src)
    case KUser => GetPair(src)
  }

  function GetId(src: seq<byte>): (r: Decoded<Val>)
    ensures r.Ok? ==> |r.value.rest| <= |src|
  {
    match VarInt.Get(src)
    case Err(e) => Err(e)
    case Ok(Read(v, rest)) =>
      VarInt.GetBounds(src);
      if v == 0 then Err(MalformedPacket) else Ok(Read(VVar(v), rest))
  }

  function GetPair(src: seq<byte>): (r: Decoded<Val>)
    ensures r.Ok? ==> |r.value.rest| <= |src|
  {
    match GetStr(src)
    case Err(e) => Err(e)
    case Ok(Read(key, r1)) =>
      match GetStr(r1)
      case Err(e) => Err(e)
      case Ok(Read(value, r2)) => Ok(Read(VPair(key, value), r2))
  }

  predicate Has(ps: seq<Prop>, id: byte) {
    exists i :: 0 <= i < |ps| && ps[i].id == id
  }

  /** The property loop: `acc` holds the properties read so far. */
  function GetProps(table: Table, src: seq<byte>, acc: seq<Prop>): Result<seq<Prop>, DecodeError>
    decreases |src|
  {
    if src == [] then Ok(acc)
    else
      var id := src[0];
      if id !in table then Err(MalformedPacket)
      else if !Repeats(table[id]) && Has(acc, id) then Err(MalformedPacket)
      else
        match GetVal(table[id], src[1..])
        case Err(e) => Err(e)
        case Ok(Read(v, rest)) => GetProps(table, rest, acc + [Prop(id, v)])
  }

  /** The loop as the source writes it. */
  method ReadProps(table: Table, src: seq<byte>) returns (r: Result<seq<Prop>, DecodeError>)
    ensures r == GetProps(table, src, [])
  {
    var cur, acc := src, [];
    while cur != []
      invariant GetProps(table, cur, acc) == GetProps(table, src, [])
      decreases |cur|
    {
      var id := cur[0];
      if id !in table {
        return Err(MalformedPacket);
      }
      if !Repeats(table[id]) && Has(acc, id) {
        return Err(MalformedPacket);
      }
      var v := GetVal(table[id], cur[1..]);
      if v.Err? {
        return Err(v.error);
      }
      acc := acc + [Prop(id, v.value.value)];
      cur := v.value.rest;
    }
    return Ok(acc);
  }

  /** Takes the announced property block from the front and reads it. */
  function GetBlock(table: Table, src: seq<byte>): Decoded<seq<Prop>> {
    match VarInt.Get(src)
    case Err(e) => Err(e)
    case Ok(Read(n, rest)) =>
      if |rest| < n then Err(InvalidLength)
      else
        match GetProps(table, rest[..n], [])
        case Err(e) => Err(e)
        case Ok(ps) => Ok(Read(ps, rest[n..]))
  }

  // ----- Looking up what was read

  function Find(ps: seq<Prop>, id: byte): Option<Val> {
    if ps == [] then None
    else if ps[0].id == id then Some(ps[0].val)
    else Find(ps[1..], id)
  }

  datatype UserProp = UserProp(key: Str, value: Str)

  function UsersOf(ps: seq<Prop>): seq<UserProp> {
    if ps == [] then []
    else (if ps[0].val.VPair? then [UserProp(ps[0].val.key, ps[0].val.value)] else []) + UsersOf(ps[1..])
  }

  /** The subscription identifiers read, in order. */
  function IdsOf(ps: seq<Prop>): seq<nz32> {
    if ps == [] then []
    else (if ps[0].val.VVar? then [ps[0].val.n] else []) + IdsOf(ps[1..])
  }

  // ----- Writing

  function ValSize(v: Val): nat {
    match v
    case VBool(_) => 1
    case VByte(_) => 1
    case VU16(_) => 2
    case VU32(_) => 4
    case VVar(n) => VarInt.Len(n)
    case VStr(s) => 2 + |s|
    case VBin(s) => 2 + |s|
    case VPair(k, v) => 2 + |k| + (2 + |v|)
  }

  predicate ValFits(v: Val) {
    match v
    case VStr(s) => Fits(s)
    case VBin(s) => Fits(s)
    case VPair(k, v) => Fits(k) && Fits(v)
    case _ => true
  }

  function PutVal(v: Val): (b: seq<byte>)
    requires ValFits(v) && !v.VVar?
    ensures |b| == ValSize(v)
  {
    match v
    case VBool(b) => PutBool(b)
    case VByte(n) => [n]
    case VU16(n) => PutU16(n)
    case VU32(n) => PutU32(n)
    case VStr(s) => PutBytes(s)
    case VBin(s) => PutBytes(s)
    case VPair(k, v) => PutBytes(k) + PutBytes(v)
  }

  function Weight(ps: seq<Prop>): nat {
    if ps == [] then 0 else 1 + ValSize(ps[0].val) + Weight(ps[1..])
  }

  predicate Writable(ps: seq<Prop>) {
    forall i :: 0 <= i < |ps| ==> ValFits(ps[i].val) && !ps[i].val.VVar?
  }

  function PutProps(ps: seq<Prop>): (b: seq<byte>)
    requires Writable(ps)
    ensures |b| == Weight(ps)
  {
    if ps == [] then [] else [ps[0].id] + PutVal(ps[0].val) + PutProps(ps[1..])
  }

  // ----- Reading inverts writing

  /** A value that a property of this kind can have. */
  predicate Suits(k: Kind, v: Val) {
    match k
    case KBool => v.VBool?
    case KQos => v.VByte? && v.qos <= 2
    case KU16 => v.VU16?
    case KNz16 => v.VU16? && v.n16 != 0
    case KU32 => v.VU32?
    case KNz32 => v.VU32? && v.n32 != 0
    case KStr => v.VStr?
    case KBin => v.VBin?
    case KId => false
    case KIds => false
    case KUser => v.VPair?
  }

  lemma ValRoundTrip(k: Kind, v: Val, rest: seq<byte>)
    requires Suits(k, v) && ValFits(v)
    ensures GetVal(k, PutVal(v) + rest) == Ok(Read(v, rest))
  {
    hide GetBytes, GetStr, GetU16, GetU32, PutU16, PutU32, PutBytes, Utf8;
    match v
    case VBool(b) => assert (PutBool(b) + rest)[1..] == rest;
    case VByte(n) => assert ([n] + rest)[1..] == rest;
    case VU16(n) => U16RoundTrip(n, rest);
    case VU32(n) => U32RoundTrip(n, rest);
    case VStr(s) => StrRoundTrip(s, rest);
    case VBin(s) => BytesRoundTrip(s, rest);
    case VPair(key, value) =>
      assert PutVal(v) + rest == PutBytes(key) + (PutBytes(value) + rest);
      StrRoundTrip(key, PutBytes(value) + rest);
      StrRoundTrip(value, rest);
  }

  /** What a packet may write after `acc`: properties of its table, each single one once. */
  ghost predicate Legal(table: Table, acc: seq<Prop>, ps: seq<Prop>) {
    && (forall i :: 0 <= i < |ps| ==> ps[i].id in table && Suits(table[ps[i].id], ps[i].val))
    && (forall i, j :: 0 <= i < j < |ps| && ps[i].id == ps[j].id ==> Repeats(table[ps[i].id]))
    && (forall i :: 0 <= i < |ps| && Has(acc, ps[i].id) ==> Repeats(table[ps[i].id]))
  }

  lemma LegalTail(table: Table, acc: seq<Prop>, ps: seq<Prop>)
    requires ps != [] && Legal(table, acc, ps)
    ensures Legal(table, acc, [ps[0]]) && Legal(table, acc + [ps[0]], ps[1..])
  {
  }

  lemma PropRoundTrip(table: Table, acc: seq<Prop>, p: Prop, rest: seq<byte>)
    requires Legal(table, acc, [p]) && ValFits(p.val) && !p.val.VVar?
    ensures GetProps(table, [p.id] + (PutVal(p.val) + rest), acc) == GetProps(table, rest, acc + [p])
  {
    hide GetVal, PutVal, Suits, ValFits, ValSize;
    var src := [p.id] + (PutVal(p.val) + rest);
    assert src[0] == p.id && src[1..] == PutVal(p.val) + rest;
    assert [p][0] == p;
    ValRoundTrip(table[p.id], p.val, rest);
  }

  lemma {:induction false} PropsRoundTrip(table: Table, acc: seq<Prop>, ps: seq<Prop>, rest: seq<byte>)
    requires Legal(table, acc, ps) && Writable(ps)
    ensures GetProps(table, PutProps(ps) + rest, acc) == GetProps(table, rest, acc + ps)
    decreases |ps|
  {
    hide GetProps, GetVal, PutVal, Suits, ValFits, ValSize, Legal;
    if ps == [] {
      assert [] + rest == rest && acc + [] == acc;
    } else {
      var p := ps[0];
      var tail := PutProps(ps[1..]) + rest;
      assert PutProps(ps) + rest == [p.id] + (PutVal(p.val) + tail);
      LegalTail(table, acc, ps);
      PropRoundTrip(table, acc, p, tail);
      PropsRoundTrip(table, acc + [p], ps[1..], rest);
      assert acc + [p] + ps[1..] == acc + ps;
    }
  }

  /** A written block reads back as the properties in it. */
  lemma BlockRoundTrip(table: Table, ps: seq<Prop>, rest: seq<byte>)
    requires Legal(table, [], ps) && Writable(ps) && Weight(ps) <= VarInt.MAX_VARINT
    ensures GetBlock(table, VarInt.Put(Weight(ps)) + PutProps(ps) + rest) == Ok(Read(ps, rest))
  {
    hide GetProps, PutProps, Legal, VarInt.Put, VarInt.Get;
    var n := Weight(ps);
    var b := PutProps(ps);
    VarInt.RoundTrip(n, b + rest);
    assert VarInt.Put(n) + b + rest == VarInt.Put(n) + (b + rest);
    assert (b + rest)[..n] == b && (b + rest)[n..] == rest;
    PropsRoundTrip(table, [], ps, []);
    assert b + [] == b && [] + ps == ps;
    NoProps(table, ps);
  }

  lemma NoProps(table: Table, acc: seq<Prop>)
    ensures GetProps(table, [], acc) == Ok(acc)
  {
  }

  // ----- What an accepted block says about its bytes

  lemma ValConsumes(k: Kind, src: seq<byte>)
    requires GetVal(k, src).Ok?
    ensures ValSize(GetVal(k, src).value.value) <= |src| - |GetVal(k, src).value.rest|
    ensures GetVal(k, src).value.value.VVar? <==> k.KId? || k.KIds?
    ensures GetVal(k, src).value.value.VVar? ==> GetVal(k, src).value.value.n <= VarInt.MAX_VARINT
    ensures GetVal(k, src).value.value.VPair? <==> k.KUser?
  {
    hide GetStr, GetBytes, VarInt.Get, VarInt.Len;
    if k.KId? || k.KIds? {
      VarInt.GetBounds(src);
      VarConsumes(src);
    }
  }

  /** A variable byte integer takes at least as many bytes as its shortest form. */
  lemma VarConsumes(src: seq<byte>)
    requires VarInt.Get(src).Ok?
    ensures VarInt.Len(VarInt.Get(src).value.value) <= |src| - |VarInt.Get(src).value.rest|
  {
    VarInt.Unfold(src);
  }

  /** No single-valued property of the table occurs twice. */
  ghost predicate NoRepeats(table: Table, ps: seq<Prop>) {
    && (forall i :: 0 <= i < |ps| ==> ps[i].id in table)
    && (forall i, j :: 0 <= i < j < |ps| && ps[i].id == ps[j].id ==> Repeats(table[ps[i].id]))
  }

  lemma {:induction false} WeightAppend(a: seq<Prop>, b: seq<Prop>)
    ensures Weight(a + b) == Weight(a) + Weight(b)
  {
    if a == [] {
      assert a + b == b;
    } else {
      WeightAppend(a[1..], b);
      assert (a + b)[1..] == a[1..] + b;
    }
  }

  /**
    An accepted block extends what was read before, contains no single-valued property twice
    and never stands for more bytes than it has.
   */
  lemma {:induction false} AcceptedProps(table: Table, src: seq<byte>, acc: seq<Prop>)
    requires NoRepeats(table, acc) && GetProps(table, src, acc).Ok?
    ensures var ps := GetProps(table, src, acc).value;
            acc <= ps && NoRepeats(table, ps) && Weight(ps) <= Weight(acc) + |src|
    decreases |src|
  {
    if src != [] {
      var id := src[0];
      var Read(v, rest) := GetVal(table[id], src[1..]).value;
      var p := Prop(id, v);
      ValConsumes(table[id], src[1..]);
      WeightAppend(acc, [p]);
      assert Weight([p]) == 1 + ValSize(v) by { assert [p][1..] == []; }
      forall i | 0 <= i < |acc| && acc[i].id == id ensures Repeats(table[id]) {
        assert Has(acc, id);
      }
      AcceptedProps(table, rest, acc + [p]);
    }
  }

  // ----- Order

  lemma {:induction false} FindMeans(ps: seq<Prop>, id: byte)
    ensures Find(ps, id).Some? ==> Prop(id, Find(ps, id).value) in ps
    ensures Find(ps, id).None? ==> forall p :: p in ps ==> p.id != id
  {
    if ps != [] {
      FindMeans(ps[1..], id);
      assert ps == [ps[0]] + ps[1..];
    }
  }

  /** Two accepted blocks with the same properties in any order give every single-valued property the same value. */
  lemma OrderIrrelevant(table: Table, a: seq<byte>, b: seq<byte>, id: byte)
    requires GetProps(table, a, []).Ok? && GetProps(table, b, []).Ok?
    requires multiset(GetProps(table, a, []).value) == multiset(GetProps(table, b, []).value)
    requires id in table && !Repeats(table[id])
    ensures Find(GetProps(table, a, []).value, id) == Find(GetProps(table, b, []).value, id)
  {
    hide GetProps, Find, Repeats;
    var ps, qs := GetProps(table, a, []).value, GetProps(table, b, []).value;
    AcceptedProps(table, a, []);
    AcceptedProps(table, b, []);
    FindMeans(ps, id);
    FindMeans(qs, id);
    forall p | p in qs ensures p in ps {
      assert p in multiset(ps);
    }
    if Find(ps, id).Some? {
      var p := Prop(id, Find(ps, id).value);
      assert p in multiset(qs);
    }
  }
}
