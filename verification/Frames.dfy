/**
  Incremental framing: the decode loops of src/v3/codec/codec.rs:58-104 and
  src/v5/codec/codec.rs:91-148, for any decoder of packet bodies.
 */
module Frames {
  import opened Wrappers
  import opened Words
  import opened Bytes
  import VarInt

  /** Decodes the body of a packet with the given first byte. */
  type BodyDecoder<!P> = (byte, seq<byte>) -> Result<P, DecodeError>

  // ----- The one-shot specification: parse a whole stream

  datatype Header =
    | Incomplete
    | Bad(error: DecodeError)
    | Header(first: byte, remaining: nat, size: nat)

  /** The fixed header at the front of a stream. */
  function ReadHeader(max: u32, s: seq<byte>): (h: Header)
    ensures h.Header? ==> 2 <= h.size <= |s|
  {
    if |s| < 2 then Incomplete
    else
      match VarInt.Get(s[1..])
      case Err(e) => if e == MalformedPacket then Incomplete else Bad(e)
      case Ok(Read(n, rest)) =>
        if max != 0 && max < n then Bad(MaxSizeExceeded)
        else Header(s[0], n, |s| - |rest|)
  }

  datatype Ending = Residue(bytes: seq<byte>) | Fault(error: DecodeError)

  /** The packets of a stream, and either the bytes of the last, incomplete frame or the first error. */
  datatype Parsed<P> = Parsed(packets: seq<P>, ending: Ending)

  function Prepend<P>(ps: seq<P>, p: Parsed<P>): Parsed<P> {
    Parsed(ps + p.packets, p.ending)
  }

  function ParseStream<P>(dec: BodyDecoder<P>, max: u32, s: seq<byte>): Parsed<P>
    decreases |s|
  {
    match ReadHeader(max, s)
    case Incomplete => Parsed([], Residue(s))
    case Bad(e) => Parsed([], Fault(e))
    case Header(first, n, size) =>
      var body := s[size..];
      if |body| < n then Parsed([], Residue(s))
      else
        match dec(first, body[..n])
        case Err(e) => Parsed([], Fault(e))
        case Ok(p) => Prepend([p], ParseStream(dec, max, body[n..]))
  }

  // ----- The machine: one call of the codec's decode

  datatype DecodeState = FrameHeader | Frame(first: byte, remaining: nat)

  /**
    The codec's state and the receive buffer. `header` records the bytes of the fixed header
    that was already taken from the buffer; the source does not keep them.
   */
  datatype Machine = Machine(state: DecodeState, buffer: seq<byte>, header: seq<byte>)

  datatype Step<P> = Starved | Packet(packet: P) | Failed(error: DecodeError)

  /** Bytes in the buffer, plus one while a header is waiting for its body. */
  function Load(m: Machine): nat {
    |m.buffer| + if m.state.Frame? then 1 else 0
  }

  function DecodeFrame<P>(dec: BodyDecoder<P>, m: Machine): (r: (Machine, Step<P>))
    requires m.state.Frame?
    ensures r.1.Packet? ==> Load(r.0) < Load(m)
  {
    var n := m.state.remaining;
    if |m.buffer| < n then (m, Starved)
    else
      match dec(m.state.first, m.buffer[..n])
      case Err(e) => (m.(buffer := m.buffer[n..]), Failed(e))
      case Ok(p) => (Machine(FrameHeader, m.buffer[n..], []), Packet(p))
  }

  function Decode<P>(dec: BodyDecoder<P>, max: u32, m: Machine): (r: (Machine, Step<P>))
    ensures r.1.Packet? ==> Load(r.0) < Load(m)
  {
    if m.state.Frame? then DecodeFrame(dec, m)
    else
      match ReadHeader(max, m.buffer)
      case Incomplete => (m, Starved)
      case Bad(e) => (m, Failed(e))
      case Header(first, n, size) =>
        DecodeFrame(dec, Machine(Frame(first, n), m.buffer[size..], m.buffer[..size]))
  }

  /** Decoding until the codec asks for more bytes or fails. */
  datatype Drained<P> = Drained(packets: seq<P>, machine: Machine, error: Option<DecodeError>)

  function Drain<P>(dec: BodyDecoder<P>, max: u32, m: Machine): Drained<P>
    decreases Load(m)
  {
    var (m', r) := Decode(dec, max, m);
    match r
    case Starved => Drained([], m', None)
    case Failed(e) => Drained([], m', Some(e))
    case Packet(p) =>
      var d := Drain(dec, max, m');
      d.(packets := [p] + d.packets)
  }

  /** Feeding a stream chunk by chunk; nothing is decoded after an error. */
  function Feed<P>(dec: BodyDecoder<P>, max: u32, chunks: seq<seq<byte>>): Drained<P> {
    if chunks == [] then Drained([], Machine(FrameHeader, [], []), None)
    else
      var d := Feed(dec, max, chunks[..|chunks| - 1]);
      if d.error.Some? then d
      else
        var m := d.machine.(buffer := d.machine.buffer + chunks[|chunks| - 1]);
        var d' := Drain(dec, max, m);
        d'.(packets := d.packets + d'.packets)
  }

  function Concat(chunks: seq<seq<byte>>): seq<byte> {
    if chunks == [] then [] else Concat(chunks[..|chunks| - 1]) + chunks[|chunks| - 1]
  }

  // ----- The machine against the specification

  /** The header bytes taken from the buffer are those of the frame the machine is in. */
  ghost predicate Coherent(max: u32, m: Machine) {
    match m.state
    case FrameHeader => m.header == []
    case Frame(first, n) => ReadHeader(max, m.header) == Header(first, n, |m.header|)
  }

  /** The bytes of the stream that the machine has not turned into packets. */
  function Pending(m: Machine): seq<byte> {
    m.header + m.buffer
  }

  /** A header, once read, is not changed by the bytes that follow it. */
  lemma HeaderStable(max: u32, s: seq<byte>, more: seq<byte>)
    requires !ReadHeader(max, s).Incomplete?
    ensures ReadHeader(max, s + more) == ReadHeader(max, s)
  {
    VarInt.Stable(s[1..], more);
    assert (s + more)[1..] == s[1..] + more;
  }

  /** A header is determined by its own bytes. */
  lemma HeaderPrefix(max: u32, s: seq<byte>)
    requires ReadHeader(max, s).Header?
    ensures var h := ReadHeader(max, s); ReadHeader(max, s[..h.size]) == h
  {
    var h := ReadHeader(max, s);
    VarInt.Unfold(s[1..]);
    VarInt.Unfold(s[..h.size][1..]);
    assert s[..h.size][1..] == s[1..h.size];
  }

  /** The specification of a frame whose header is known. */
  function ParseBody<P>(dec: BodyDecoder<P>, max: u32, h: Header, s: seq<byte>, body: seq<byte>): Parsed<P>
    requires h.Header?
  {
    if |body| < h.remaining then Parsed([], Residue(s))
    else
      match dec(h.first, body[..h.remaining])
      case Err(e) => Parsed([], Fault(e))
      case Ok(p) => Prepend([p], ParseStream(dec, max, body[h.remaining..]))
  }

  lemma ParseKnown<P>(dec: BodyDecoder<P>, max: u32, h: Header, s: seq<byte>)
    requires ReadHeader(max, s) == h && h.Header?
    ensures ParseStream(dec, max, s) == ParseBody(dec, max, h, s, s[h.size..])
  {
  }

  lemma ParseFrame<P>(dec: BodyDecoder<P>, max: u32, m: Machine)
    requires Coherent(max, m) && m.state.Frame?
    ensures ParseStream(dec, max, Pending(m))
         == ParseBody(dec, max, Header(m.state.first, m.state.remaining, |m.header|), Pending(m), m.buffer)
  {
    HeaderStable(max, m.header, m.buffer);
    assert Pending(m)[|m.header|..] == m.buffer;
    ParseKnown(dec, max, Header(m.state.first, m.state.remaining, |m.header|), Pending(m));
  }

  /** One call of the codec does what the specification does with its pending bytes. */
  ghost predicate StepRefines<P>(dec: BodyDecoder<P>, max: u32, m: Machine, m': Machine, r: Step<P>) {
    var parsed := ParseStream(dec, max, Pending(m));
    match r
    case Starved => Coherent(max, m') && Pending(m') == Pending(m) && parsed == Parsed([], Residue(Pending(m)))
    case Failed(e) => parsed == Parsed([], Fault(e))
    case Packet(p) => Coherent(max, m') && parsed == Prepend([p], ParseStream(dec, max, Pending(m')))
  }

  lemma DecodeFrameRefines<P>(dec: BodyDecoder<P>, max: u32, m: Machine)
    requires Coherent(max, m) && m.state.Frame?
    ensures StepRefines(dec, max, m, DecodeFrame(dec, m).0, DecodeFrame(dec, m).1)
  {
    ParseFrame(dec, max, m);
    var m' := DecodeFrame(dec, m).0;
    if m'.state.FrameHeader? { assert Pending(m') == m'.buffer; }
  }

  lemma DecodeRefines<P>(dec: BodyDecoder<P>, max: u32, m: Machine)
    requires Coherent(max, m)
    ensures StepRefines(dec, max, m, Decode(dec, max, m).0, Decode(dec, max, m).1)
  {
    if m.state.Frame? {
      DecodeFrameRefines(dec, max, m);
    } else {
      assert Pending(m) == m.buffer;
      var h := ReadHeader(max, m.buffer);
      if h.Header? {
        HeaderPrefix(max, m.buffer);
        var f := Machine(Frame(h.first, h.remaining), m.buffer[h.size..], m.buffer[..h.size]);
        assert Pending(f) == m.buffer;
        DecodeFrameRefines(dec, max, f);
      }
    }
  }

  /** What decoding to exhaustion makes of the pending bytes. */
  ghost predicate Agrees<P>(p: Parsed<P>, d: Drained<P>) {
    p == Parsed(d.packets, if d.error.Some? then Fault(d.error.value) else Residue(Pending(d.machine)))
  }

  lemma {:induction false} DrainRefines<P>(dec: BodyDecoder<P>, max: u32, m: Machine)
    requires Coherent(max, m)
    ensures Agrees(ParseStream(dec, max, Pending(m)), Drain(dec, max, m))
    ensures Drain(dec, max, m).error.None? ==> Coherent(max, Drain(dec, max, m).machine)
    decreases Load(m)
  {
    DecodeRefines(dec, max, m);
    var (m', r) := Decode(dec, max, m);
    if r.Packet? {
      DrainRefines(dec, max, m');
    }
  }

  /** Parsing can stop at any point and go on when more bytes are there. */
  lemma {:induction false} ParseMore<P>(dec: BodyDecoder<P>, max: u32, s: seq<byte>, more: seq<byte>)
    ensures var p := ParseStream(dec, max, s);
            ParseStream(dec, max, s + more) ==
              if p.ending.Fault? then p
              else Prepend(p.packets, ParseStream(dec, max, p.ending.bytes + more))
    decreases |s|, 1
  {
    var h := ReadHeader(max, s);
    if h.Incomplete? {
      PrependNone(ParseStream(dec, max, s + more));
    } else {
      HeaderStable(max, s, more);
      if h.Header? {
        ParseMoreBody(dec, max, h, s, more);
      }
    }
  }

  lemma {:induction false} ParseMoreBody<P>(dec: BodyDecoder<P>, max: u32, h: Header, s: seq<byte>, more: seq<byte>)
    requires h.Header? && ReadHeader(max, s) == h && ReadHeader(max, s + more) == h
    ensures var p := ParseStream(dec, max, s);
            ParseStream(dec, max, s + more) ==
              if p.ending.Fault? then p
              else Prepend(p.packets, ParseStream(dec, max, p.ending.bytes + more))
    decreases |s|, 0
  {
    var body := s[h.size..];
    var n := h.remaining;
    ParseKnown(dec, max, h, s);
    ParseKnown(dec, max, h, s + more);
    assert (s + more)[h.size..] == body + more;
    if |body| < n {
      PrependNone(ParseStream(dec, max, s + more));
    } else {
      assert (body + more)[..n] == body[..n] && (body + more)[n..] == body[n..] + more;
      ParseMore(dec, max, body[n..], more);
      var q := ParseStream(dec, max, body[n..]);
      if dec(h.first, body[..n]).Ok? && q.ending.Residue? {
        PrependPrepend([dec(h.first, body[..n]).value], q.packets, ParseStream(dec, max, q.ending.bytes + more));
      }
    }
  }

  lemma PrependPrepend<P>(a: seq<P>, b: seq<P>, p: Parsed<P>)
    ensures Prepend(a, Prepend(b, p)) == Prepend(a + b, p)
  {
  }

  lemma PrependNone<P>(p: Parsed<P>)
    ensures Prepend([], p) == p
  {
  }

  /**
    Fragmentation independence: however a stream is cut into chunks, the codec yields the
    packets, the first error or the unread rest that the one-shot parse of the stream has.
   */
  lemma {:induction false} FragmentationIndependent<P>(dec: BodyDecoder<P>, max: u32, chunks: seq<seq<byte>>)
    ensures Agrees(ParseStream(dec, max, Concat(chunks)), Feed(dec, max, chunks))
    ensures Feed(dec, max, chunks).error.None? ==> Coherent(max, Feed(dec, max, chunks).machine)
  {
    if chunks == [] {
      assert Pending(Machine(FrameHeader, [], [])) == [];
    } else {
      var before, last := chunks[..|chunks| - 1], chunks[|chunks| - 1];
      FragmentationIndependent(dec, max, before);
      ParseMore(dec, max, Concat(before), last);
      var d := Feed(dec, max, before);
      if d.error.None? {
        var m := d.machine.(buffer := d.machine.buffer + last);
        assert Pending(m) == Pending(d.machine) + last;
        DrainRefines(dec, max, m);
      }
    }
  }

  /** Two ways of cutting the same stream cannot be told apart. */
  lemma ChunkingsAgree<P>(dec: BodyDecoder<P>, max: u32, a: seq<seq<byte>>, b: seq<seq<byte>>)
    requires Concat(a) == Concat(b)
    ensures var da, db := Feed(dec, max, a), Feed(dec, max, b);
            && da.packets == db.packets && da.error == db.error
            && (da.error.None? ==> Pending(da.machine) == Pending(db.machine))
  {
    FragmentationIndependent(dec, max, a);
    FragmentationIndependent(dec, max, b);
  }

  // ----- Streams of encoded frames

  function PutFrame(first: byte, body: seq<byte>): seq<byte>
    requires |body| <= VarInt.MAX_VARINT
  {
    [first] + VarInt.Put(|body|) + body
  }

  lemma HeaderRoundTrip(max: u32, first: byte, n: nat, tail: seq<byte>)
    requires n <= VarInt.MAX_VARINT && (max == 0 || n <= max)
    ensures var s := [first] + VarInt.Put(n) + tail;
            var size := 1 + |VarInt.Put(n)|;
            ReadHeader(max, s) == Header(first, n, size) && s[size..] == tail
  {
    var s := [first] + VarInt.Put(n) + tail;
    assert s[1..] == VarInt.Put(n) + tail;
    VarInt.RoundTrip(n, tail);
  }

  /** Parsing a frame that announces `n` bytes, whatever its body holds. */
  lemma AnnouncedFrame<P>(dec: BodyDecoder<P>, max: u32, first: byte, n: nat, body: seq<byte>)
    requires n <= VarInt.MAX_VARINT && (max == 0 || n <= max) && n <= |body|
    ensures ParseStream(dec, max, [first] + VarInt.Put(n) + body) ==
            match dec(first, body[..n])
            case Err(e) => Parsed([], Fault(e))
            case Ok(p) => Prepend([p], ParseStream(dec, max, body[n..]))
  {
    HeaderRoundTrip(max, first, n, body);
    ParseKnown(dec, max, Header(first, n, 1 + |VarInt.Put(n)|), [first] + VarInt.Put(n) + body);
  }

  lemma FrameRoundTrip<P>(dec: BodyDecoder<P>, max: u32, first: byte, body: seq<byte>, rest: seq<byte>)
    requires |body| <= VarInt.MAX_VARINT && (max == 0 || |body| <= max)
    requires dec(first, body).Ok?
    ensures ParseStream(dec, max, PutFrame(first, body) + rest)
         == Prepend([dec(first, body).value], ParseStream(dec, max, rest))
  {
    var s := PutFrame(first, body) + rest;
    var size := 1 + |VarInt.Put(|body|)|;
    assert s == [first] + VarInt.Put(|body|) + (body + rest);
    HeaderRoundTrip(max, first, |body|, body + rest);
    assert (body + rest)[..|body|] == body && (body + rest)[|body|..] == rest;
    ParseKnown(dec, max, Header(first, |body|, size), s);
  }

  // ----- The maximum inbound size

  /** Which streams start with a whole fixed header, with part of one, or with one that cannot be read. */
  lemma HeaderKinds(s: seq<byte>)
    ensures ReadHeader(0, s).Bad? <==> |s| >= 5 && forall i :: 1 <= i < 5 ==> s[i] >= 128
    ensures ReadHeader(0, s).Bad? ==> ReadHeader(0, s).error == InvalidLength
    ensures ReadHeader(0, s).Incomplete? <==> |s| < 5 && forall i :: 1 <= i < |s| ==> s[i] >= 128
  {
    if |s| >= 2 {
      VarInt.Unfold(s[1..]);
      assert forall i :: 0 <= i < |s| - 1 ==> s[1..][i] == s[i + 1];
    }
  }

  /** A limit refuses exactly the headers that announce more, and changes no other. */
  lemma HeaderLimit(max: u32, s: seq<byte>)
    requires max != 0
    ensures var h := ReadHeader(0, s);
            ReadHeader(max, s) == if h.Header? && h.remaining > max then Bad(MaxSizeExceeded) else h
  {
  }

  /**
    A frame that announces more than the maximum is refused as soon as its header is there,
    whatever follows; any other is treated as if there were no maximum.
   */
  lemma TooLargeRefused<P>(dec: BodyDecoder<P>, max: u32, first: byte, n: nat, tail: seq<byte>)
    requires max != 0 && n <= VarInt.MAX_VARINT
    ensures var s := [first] + VarInt.Put(n) + tail;
            var m := Machine(FrameHeader, s, []);
            && (ReadHeader(max, s) == Bad(MaxSizeExceeded) <==> n > max)
            && (n > max ==> Decode(dec, max, m) == (m, Failed(MaxSizeExceeded)))
            && (n <= max ==> Decode(dec, max, m) == Decode(dec, 0, m))
  {
    HeaderRoundTrip(0, first, n, tail);
    HeaderLimit(max, [first] + VarInt.Put(n) + tail);
  }

  /** The lengths that the frames of a stream announce, up to the last header that is whole. */
  function Announced<P>(dec: BodyDecoder<P>, s: seq<byte>): (a: seq<nat>)
    ensures |ParseStream(dec, 0, s).packets| <= |a|
    decreases |s|
  {
    match ReadHeader(0, s)
    case Incomplete => []
    case Bad(_) => []
    case Header(first, n, size) =>
      var body := s[size..];
      if |body| < n || dec(first, body[..n]).Err? then [n] else [n] + Announced(dec, body[n..])
  }

  ghost predicate AllWithin(max: u32, lens: seq<nat>) {
    forall i :: 0 <= i < |lens| ==> lens[i] <= max
  }

  /** The parse under a maximum, up to frame `k`, is what is left of the unlimited one. */
  ghost predicate CutAt<P>(limited: Parsed<P>, whole: Parsed<P>, k: nat, frames: nat) {
    if k == frames then limited == whole
    else k <= |whole.packets| && limited == Parsed(whole.packets[..k], Fault(MaxSizeExceeded))
  }

  lemma CutBehind<P>(p: P, limited: Parsed<P>, whole: Parsed<P>, k: nat, frames: nat)
    requires CutAt(limited, whole, k, frames)
    ensures CutAt(Prepend([p], limited), Prepend([p], whole), k + 1, frames + 1)
  {
    if k != frames { assert ([p] + whole.packets)[..k + 1] == [p] + whole.packets[..k]; }
  }

  /**
    The maximum cuts a stream: with frame `k` the first to announce more than the maximum, the
    packets before it are those of the unlimited stream and the stream ends in
    MaxSizeExceeded there; without such a frame the maximum changes nothing.
   */
  lemma {:induction false} SizeLimitCuts<P>(dec: BodyDecoder<P>, max: u32, s: seq<byte>, k: nat)
    requires max != 0 && k <= |Announced(dec, s)| && AllWithin(max, Announced(dec, s)[..k])
    requires k < |Announced(dec, s)| ==> Announced(dec, s)[k] > max
    ensures CutAt(ParseStream(dec, max, s), ParseStream(dec, 0, s), k, |Announced(dec, s)|)
    decreases |s|
  {
    hide ReadHeader;
    var h := ReadHeader(0, s);
    HeaderLimit(max, s);
    if h.Header? && k > 0 {
      var a, body := Announced(dec, s), s[h.size..];
      assert a[..k][0] == a[0] == h.remaining;
      ParseKnown(dec, max, h, s);
      ParseKnown(dec, 0, h, s);
      if h.remaining <= |body| && dec(h.first, body[..h.remaining]).Ok? {
        var rest := body[h.remaining..];
        var b := Announced(dec, rest);
        assert a == [h.remaining] + b;
        assert b[..k - 1] == a[..k][1..];
        SizeLimitCuts(dec, max, rest, k - 1);
        CutBehind(dec(h.first, body[..h.remaining]).value, ParseStream(dec, max, rest), ParseStream(dec, 0, rest),
                  k - 1, |b|);
      }
    }
  }

  // ----- The codec as the source keeps it

  class Codec<!P> {
    const dec: BodyDecoder<P>
    const maxSize: u32
    var state: DecodeState
    var src: seq<byte>          // the receive buffer that the codec consumes
    ghost var header: seq<byte>

    constructor (dec: BodyDecoder<P>, maxSize: u32)
      ensures Model() == Machine(FrameHeader, [], []) && Coherent(maxSize, Model())
      ensures this.dec == dec && this.maxSize == maxSize
    {
      this.dec, this.maxSize := dec, maxSize;
      state, src, header := FrameHeader, [], [];
    }

    ghost function Model(): Machine
      reads this
    {
      Machine(state, src, header)
    }

    method DecodeNext() returns (r: Step<P>)
      modifies this
      ensures (Model(), r) == Decode(dec, maxSize, old(Model()))
    {
      while true
        invariant Decode(dec, maxSize, Model()) == Decode(dec, maxSize, old(Model()))
        invariant state.FrameHeader? ==> Model() == old(Model())
        decreases state.FrameHeader?
      {
        if state.FrameHeader? {
          if |src| < 2 {
            return Starved;
          }
          var first := src[0];
          var len := VarInt.GetLoop(src[1..]);
          if len.Err? {
            if len.error == MalformedPacket {
              return Starved;
            }
            return Failed(len.error);
          }
          var n, consumed := len.value.value, |src| - |len.value.rest|;
          if maxSize != 0 && maxSize < n {
            return Failed(MaxSizeExceeded);
          }
          header := src[..consumed];
          src := src[consumed..];
          state := Frame(first, n);
          if |src| < n {
            return Starved;
          }
        } else {
          if |src| < state.remaining {
            return Starved;
          }
          var body := src[..state.remaining];
          src := src[state.remaining..];
          var packet := dec(state.first, body);
          if packet.Err? {
            return Failed(packet.error);
          }
          state := FrameHeader;
          header := [];
          return Packet(packet.value);
        }
      }
    }
  }
}
