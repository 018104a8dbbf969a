/** Bytes, errors and the fixed-width primitives of src/utils.rs. Decoders return what they read and what is left. */
module Bytes {
  import opened Wrappers
  import opened Words

  type byte = x: int | 0 <= x < 256

  datatype DecodeError =
    | InvalidProtocol
    | InvalidLength
    | MalformedPacket
    | UnsupportedProtocolLevel
    | ConnectReservedFlagSet
    | ConnAckReservedFlagSet
    | InvalidClientId
    | UnsupportedPacketType
    | MaxSizeExceeded
    | Utf8Error

  datatype EncodeError =
    | EncInvalidLength
    | EncMalformedPacket
    | EncPacketIdRequired
    | LengthTooBig           // the panic of write_variable_length

  datatype Read<+T> = Read(value: T, rest: seq<byte>)

  type Decoded<+T> = Result<Read<T>, DecodeError>

  type nz16 = x: int | 1 <= x < 0x1_0000 witness 1
  type nz32 = x: int | 1 <= x < U32 witness 1

  // ----- Bytes and big-endian words

  function PutU16(n: u16): (b: seq<byte>)
    ensures |b| == 2
  {
    [n / 256, n % 256]
  }

  function PutU32(n: u32): (b: seq<byte>)
    ensures |b| == 4
  {
    [n / 0x100_0000, n / 0x1_0000 % 256, n / 256 % 256, n % 256]
  }

  function GetU8(src: seq<byte>): Decoded<byte> {
    if |src| < 1 then Err(InvalidLength) else Ok(Read(src[0], src[1..]))
  }

  function GetU16(src: seq<byte>): Decoded<u16> {
    if |src| < 2 then Err(InvalidLength) else Ok(Read(src[0] as int * 256 + src[1], src[2..]))
  }

  function GetU32(src: seq<byte>): Decoded<u32> {
    if |src| < 4 then Err(InvalidLength)
    else Ok(Read(src[0] as int * 0x100_0000 + src[1] as int * 0x1_0000 + src[2] as int * 256 + src[3], src[4..]))
  }

  function GetNz16(src: seq<byte>): Decoded<nz16> {
    match GetU16(src)
    case Err(e) => Err(e)
    case Ok(Read(n, rest)) => if n == 0 then Err(MalformedPacket) else Ok(Read(n, rest))
  }

  function GetNz32(src: seq<byte>): Decoded<nz32> {
    match GetU32(src)
    case Err(e) => Err(e)
    case Ok(Read(n, rest)) => if n == 0 then Err(MalformedPacket) else Ok(Read(n, rest))
  }

  function PutBool(b: bool): seq<byte> {
    [if b then 1 else 0]
  }

  function GetBool(src: seq<byte>): Decoded<bool> {
    match GetU8(src)
    case Err(e) => Err(e)
    case Ok(Read(v, rest)) => if v > 1 then Err(MalformedPacket) else Ok(Read(v == 1, rest))
  }

  lemma U16RoundTrip(n: u16, rest: seq<byte>)
    ensures GetU16(PutU16(n) + rest) == Ok(Read(n, rest))
    ensures n != 0 ==> GetNz16(PutU16(n) + rest) == Ok(Read(n, rest))
  {
  }

  lemma FourBytes(n: u32)
    ensures n / 0x100_0000 * 0x100_0000 + n / 0x1_0000 % 256 * 0x1_0000 + n / 256 % 256 * 256 + n % 256 == n
  {
    assert n / 0x1_0000 == n / 0x100_0000 * 256 + n / 0x1_0000 % 256;
    assert n / 256 == n / 0x1_0000 * 256 + n / 256 % 256;
  }

  lemma U32RoundTrip(n: u32, rest: seq<byte>)
    ensures GetU32(PutU32(n) + rest) == Ok(Read(n, rest))
    ensures n != 0 ==> GetNz32(PutU32(n) + rest) == Ok(Read(n, rest))
  {
    FourBytes(n);
    var p := PutU32(n);
    var s := p + rest;
    assert s[0] == p[0] && s[1] == p[1] && s[2] == p[2] && s[3] == p[3] && s[4..] == rest;
  }

  // ----- Length-prefixed bytes and strings

  const MAX_FIELD := 0xFFFF

  /** A field can be written if its length fits the two length bytes. */
  predicate Fits(s: seq<byte>) {
    |s| <= MAX_FIELD
  }

  function PutBytes(s: seq<byte>): (b: seq<byte>)
    requires Fits(s)
    ensures |b| == 2 + |s|
  {
    PutU16(|s|) + s
  }

  function GetBytes(src: seq<byte>): (r: Decoded<seq<byte>>)
    ensures r.Ok? ==> Fits(r.value.value) && |src| == 2 + |r.value.value| + |r.value.rest|
  {
    match GetU16(src)
    case Err(e) => Err(e)
    case Ok(Read(n, rest)) =>
      if |rest| < n then Err(InvalidLength) else Ok(Read(rest[..n], rest[n..]))
  }

  /** A byte that continues a multi-byte character. */
  predicate Continues(s: seq<byte>, i: nat) {
    i < |s| && 0x80 <= s[i] <= 0xBF
  }

  /** Length of the well-formed UTF-8 character at an index (Unicode 14, table 3-7), or 0. */
  function CharLen(s: seq<byte>, i: nat): (n: nat)
    requires i < |s|
    ensures i + n <= |s|
  {
    var b := s[i];
    if b <= 0x7F then 1
    else if 0xC2 <= b <= 0xDF && Continues(s, i + 1) then 2
    else if 0xE0 <= b <= 0xEF && Continues(s, i + 1) && Continues(s, i + 2)
         && (b == 0xE0 ==> 0xA0 <= s[i + 1]) && (b == 0xED ==> s[i + 1] <= 0x9F) then 3
    else if 0xF0 <= b <= 0xF4 && Continues(s, i + 1) && Continues(s, i + 2) && Continues(s, i + 3)
         && (b == 0xF0 ==> 0x90 <= s[i + 1]) && (b == 0xF4 ==> s[i + 1] <= 0x8F) then 4
    else 0
  }

  predicate Utf8From(s: seq<byte>, i: nat)
    requires i <= |s|
    decreases |s| - i
  {
    i == |s| || (CharLen(s, i) > 0 && Utf8From(s, i + CharLen(s, i)))
  }

  predicate Utf8(s: seq<byte>) {
    Utf8From(s, 0)
  }

  /** A string of the source: valid UTF-8. */
  type Str = s: seq<byte> | Utf8(s) witness []

  function GetStr(src: seq<byte>): (r: Decoded<Str>)
    ensures r.Ok? ==> Fits(r.value.value) && |src| == 2 + |r.value.value| + |r.value.rest|
  {
    match GetBytes(src)
    case Err(e) => Err(e)
    case Ok(Read(s, rest)) => if Utf8(s) then Ok(Read(s, rest)) else Err(Utf8Error)
  }

  lemma BytesRoundTrip(s: seq<byte>, rest: seq<byte>)
    requires Fits(s)
    ensures GetBytes(PutBytes(s) + rest) == Ok(Read(s, rest))
  {
    U16RoundTrip(|s|, s + rest);
    assert PutBytes(s) + rest == PutU16(|s|) + (s + rest);
    assert (s + rest)[..|s|] == s && (s + rest)[|s|..] == rest;
  }

  lemma StrRoundTrip(s: Str, rest: seq<byte>)
    requires Fits(s)
    ensures GetStr(PutBytes(s) + rest) == Ok(Read(s, rest))
  {
    BytesRoundTrip(s, rest);
  }

  // ----- Parts that the packets of both versions share: flag bits, optional fields, lists of topics

  function Bit(b: bool): nat {
    if b then 1 else 0
  }

  lemma FlagBits(u: nat, p: nat, r: nat, q: nat, w: nat, s: nat)
    requires u < 2 && p < 2 && r < 2 && q < 4 && w < 2 && s < 2
    ensures var f := 128 * u + 64 * p + 32 * r + 8 * q + 4 * w + 2 * s;
            && f % 2 == 0 && f / 2 % 2 == s && f / 4 % 2 == w && f / 8 % 4 == q
            && f / 32 % 2 == r && f / 64 % 2 == p && f / 128 == u
  {
    var f := 128 * u + 64 * p + 32 * r + 8 * q + 4 * w + 2 * s;
    assert f / 2 == 64 * u + 32 * p + 16 * r + 4 * q + 2 * w + s;
    assert f / 4 == 32 * u + 16 * p + 8 * r + 2 * q + w;
    assert f / 8 == 16 * u + 8 * p + 4 * r + q;
    assert f / 32 == 4 * u + 2 * p + r;
    assert f / 64 == 2 * u + p;
  }

  /** A flags byte is the sum of its parts. */
  lemma FlagParts(f: byte)
    ensures f as int == 128 * (f / 128) + 64 * (f / 64 % 2) + 32 * (f / 32 % 2) + 8 * (f / 8 % 4) + 4 * (f / 4 % 2)
                        + 2 * (f / 2 % 2) + f as int % 2
    ensures f / 8 % 8 == 4 * (f / 32 % 2) + f / 8 % 4
  {
    assert f / 64 == 2 * (f / 128) + f / 64 % 2;
    assert f / 32 == 2 * (f / 64) + f / 32 % 2;
    assert f / 8 == 4 * (f / 32) + f / 8 % 4;
    assert f / 4 == 2 * (f / 8) + f / 4 % 2;
    assert f / 2 == 2 * (f / 4) + f / 2 % 2;
    assert f / 8 == 8 * (f / 64) + (4 * (f / 32 % 2) + f / 8 % 4);
  }

  predicate OptFits(o: Option<seq<byte>>) {
    o.Some? ==> Fits(o.value)
  }

  function OptLen(o: Option<seq<byte>>): nat {
    if o.Some? then 2 + |o.value| else 0
  }

  function PutOpt(o: Option<seq<byte>>): (b: seq<byte>)
    requires OptFits(o)
    ensures |b| == OptLen(o)
  {
    if o.Some? then PutBytes(o.value) else []
  }

  function GetOptStr(present: bool, src: seq<byte>): Decoded<Option<Str>> {
    if !present then Ok(Read(None, src))
    else
      match GetStr(src)
      case Err(e) => Err(e)
      case Ok(Read(s, rest)) => Ok(Read(Some(s), rest))
  }

  function GetOptBytes(present: bool, src: seq<byte>): Decoded<Option<seq<byte>>> {
    if !present then Ok(Read(None, src))
    else
      match GetBytes(src)
      case Err(e) => Err(e)
      case Ok(Read(s, rest)) => Ok(Read(Some(s), rest))
  }

  lemma OptRoundTrip(u: Option<Str>, p: Option<seq<byte>>)
    requires OptFits(u) && OptFits(p)
    ensures GetOptStr(u.Some?, PutOpt(u) + PutOpt(p)) == Ok(Read(u, PutOpt(p)))
    ensures GetOptBytes(p.Some?, PutOpt(p)) == Ok(Read(p, []))
  {
    hide GetStr, GetBytes, PutBytes;
    if u.Some? { StrRoundTrip(u.value, PutOpt(p)); } else { assert [] + PutOpt(p) == PutOpt(p); }
    if p.Some? {
      BytesRoundTrip(p.value, []);
      assert PutBytes(p.value) + [] == PutBytes(p.value);
    }
  }

  /** Reading consumes what the decoded values stand for. */
  lemma OptConsumes(b: bool, src: seq<byte>)
    ensures GetOptStr(b, src).Ok? ==> |src| == OptLen(GetOptStr(b, src).value.value) + |GetOptStr(b, src).value.rest|
    ensures GetOptBytes(b, src).Ok? ==>
              |src| == OptLen(GetOptBytes(b, src).value.value) + |GetOptBytes(b, src).value.rest|
  {
  }

  function TopicsSize(ts: seq<Str>): nat {
    if ts == [] then 0 else 2 + |ts[0]| + TopicsSize(ts[1..])
  }

  predicate TopicsFit(ts: seq<Str>) {
    forall i :: 0 <= i < |ts| ==> Fits(ts[i])
  }

  function PutTopics(ts: seq<Str>): (b: seq<byte>)
    requires TopicsFit(ts)
    ensures |b| == TopicsSize(ts)
  {
    if ts == [] then [] else PutBytes(ts[0]) + PutTopics(ts[1..])
  }

  function GetTopics(src: seq<byte>): Result<seq<Str>, DecodeError>
    decreases |src|
  {
    if src == [] then Ok([])
    else
      match GetStr(src)
      case Err(e) => Err(e)
      case Ok(Read(topic, r1)) =>
        match GetTopics(r1)
        case Err(e) => Err(e)
        case Ok(ts) => Ok([topic] + ts)
  }

  lemma {:induction false} TopicsRoundTrip(ts: seq<Str>)
    requires TopicsFit(ts)
    ensures GetTopics(PutTopics(ts)) == Ok(ts)
  {
    hide GetStr, PutBytes;
    if ts != [] {
      TopicsRoundTrip(ts[1..]);
      StrRoundTrip(ts[0], PutTopics(ts[1..]));
      assert ts == [ts[0]] + ts[1..];
    }
  }

  lemma {:induction false} TopicsDecodedSize(src: seq<byte>)
    ensures GetTopics(src).Ok? ==> TopicsSize(GetTopics(src).value) == |src|
    decreases |src|
  {
    if GetTopics(src).Ok? && src != [] {
      var Read(topic, r1) := GetStr(src).value;
      TopicsDecodedSize(r1);
      assert GetTopics(src).value[1..] == GetTopics(r1).value;
    }
  }

  // ----- Reading accepts only what is written

  lemma U16Inverse(src: seq<byte>)
    requires GetU16(src).Ok?
    ensures src == PutU16(GetU16(src).value.value) + GetU16(src).value.rest
  {
  }

  /** The quotients of a word by the weights of its bytes. */
  lemma Quotients(a: byte, b: byte, c: byte, d: byte)
    ensures var n := a as int * 0x100_0000 + b as int * 0x1_0000 + c as int * 256 + d;
            n / 0x100_0000 == a && n / 0x1_0000 == a as int * 256 + b
            && n / 256 == a as int * 0x1_0000 + b as int * 256 + c && n % 256 == d
  {
    var low1, low2 := c as int * 256 + d, b as int * 0x1_0000 + c as int * 256 + d;
    assert 0 <= low1 < 0x1_0000 && 0 <= low2 < 0x100_0000;
  }

  lemma U32Inverse(src: seq<byte>)
    requires GetU32(src).Ok?
    ensures src == PutU32(GetU32(src).value.value) + GetU32(src).value.rest
  {
    Quotients(src[0], src[1], src[2], src[3]);
    var h := src[0] as int * 256 + src[1];
    assert h % 256 == src[1];
    var g := src[0] as int * 0x1_0000 + src[1] as int * 256 + src[2];
    assert g == h * 256 + src[2] && g % 256 == src[2];
    assert PutU32(GetU32(src).value.value) == src[..4];
  }

  lemma BytesInverse(src: seq<byte>)
    requires GetBytes(src).Ok?
    ensures src == PutBytes(GetBytes(src).value.value) + GetBytes(src).value.rest
  {
    hide GetU16, PutU16;
    U16Inverse(src);
    var Read(n, rest) := GetU16(src).value;
    assert rest == rest[..n] + rest[n..];
  }

  lemma StrInverse(src: seq<byte>)
    requires GetStr(src).Ok?
    ensures src == PutBytes(GetStr(src).value.value) + GetStr(src).value.rest
  {
    BytesInverse(src);
  }

  lemma OptInverse(b: bool, src: seq<byte>)
    ensures GetOptStr(b, src).Ok? ==>
              var Read(o, rest) := GetOptStr(b, src).value; OptFits(o) && o.Some? == b && src == PutOpt(o) + rest
    ensures GetOptBytes(b, src).Ok? ==>
              var Read(o, rest) := GetOptBytes(b, src).value; OptFits(o) && o.Some? == b && src == PutOpt(o) + rest
  {
    hide GetStr, GetBytes, PutBytes;
    if GetStr(src).Ok? { StrInverse(src); }
    if GetBytes(src).Ok? { BytesInverse(src); }
    assert [] + src == src;
  }

  lemma {:induction false} TopicsInverse(src: seq<byte>)
    requires GetTopics(src).Ok?
    ensures TopicsFit(GetTopics(src).value) && src == PutTopics(GetTopics(src).value)
    decreases |src|
  {
    hide GetStr, PutBytes;
    if src != [] {
      StrInverse(src);
      TopicsInverse(GetStr(src).value.rest);
      assert GetTopics(src).value[1..] == GetTopics(GetStr(src).value.rest).value;
    }
  }
}
