/** The MQTT 5.0 codec as the object the source keeps (src/v5/codec/codec.rs). */
module V5CodecObject {
  import opened Wrappers
  import opened Words
  import opened Bytes
  import opened V5Packets
  import opened V5Codec
  import opened V5Streams
  import opened V5Writer
  import VarInt
  import Frames

  class Codec {
    const framing: Frames.Codec<Packet>
    var maxOutSize: u32
    var noProblemInfo: bool
    ghost var decoded: seq<Packet>       // everything decoded so far

    ghost predicate Valid()
      reads this, framing
    {
      && framing.dec == DecodePacket
      && Frames.Coherent(framing.maxSize, framing.Model())
      && noProblemInfo == AfterDecoding(false, decoded)
    }

    constructor (maxInSize: u32, maxOutSize: u32)
      ensures Valid() && fresh(framing) && framing.maxSize == maxInSize && this.maxOutSize == maxOutSize
      ensures framing.Model() == Frames.Machine(Frames.FrameHeader, [], []) && decoded == []
    {
      framing := new Frames.Codec(DecodePacket, maxInSize);
      this.maxOutSize, noProblemInfo, decoded := maxOutSize, false, [];
    }

    /** Decodes the next packet; a CONNECT decides whether problem information may be sent. */
    method DecodeNext() returns (r: Frames.Step<Packet>)
      requires Valid()
      modifies this, framing
      ensures (framing.Model(), r) == Frames.Decode(DecodePacket, framing.maxSize, old(framing.Model()))
      ensures decoded == old(decoded) + if r.Packet? then [r.packet] else []
      ensures maxOutSize == old(maxOutSize)
      ensures !r.Failed? ==> Valid()
    {
      hide DecodePacket, Frames.Decode;
      Frames.DecodeRefines(framing.dec, framing.maxSize, framing.Model());
      r := framing.DecodeNext();
      if r.Packet? {
        if r.packet.Connect? {
          noProblemInfo := !r.packet.connection.problemInfo;
        }
        assert (decoded + [r.packet])[..|decoded|] == decoded;
        decoded := decoded + [r.packet];
      } else {
        assert decoded + [] == decoded;
      }
    }

    /**
      Encodes a packet behind what the buffer holds: strips what the peer declined, lets the size
      pass count, refuses what is over the limit, and lets the write pass write. On its own, what
      was appended is read by the peer as the packet that was sent exactly if the packet survives.
     */
    method Encode(p: Packet, dst: seq<byte>) returns (r: Result<seq<byte>, EncodeError>)
      ensures var cfg := Settings(noProblemInfo, maxOutSize);
              && (r.Ok? <==> V5Codec.Encode(cfg, p).Ok?)
              && (r.Err? ==> r.error == V5Codec.Encode(cfg, p).error)
              && (r.Ok? ==> r.value == dst + V5Codec.Encode(cfg, p).value)
      ensures r.Ok? && Typed(p) ==>
                var cfg := Settings(noProblemInfo, maxOutSize);
                var read := Frames.ParseStream(DecodePacket, 0, r.value[|dst|..]);
                read == Frames.Parsed([Sent(cfg, p)], Frames.Residue([])) <==> Survives(Prepared(cfg, p))
    {
      hide ContentSize, BodyError, PutBody, FirstByte, DecodePacket, Frames.ParseStream, Survives, Typed, VarInt.Put;
      ghost var cfg := Settings(noProblemInfo, maxOutSize);
      var item := p;
      if noProblemInfo {
        item := Prepared(Settings(true, maxOutSize), p);
      }
      var maxSize := if maxOutSize != 0 then maxOutSize else VarInt.MAX_VARINT;
      var size := SizePass(item, maxSize);
      if size > maxSize {
        return Err(EncInvalidLength);
      }
      if size > VarInt.MAX_VARINT {
        return Err(LengthTooBig);
      }
      r := WritePass(item, maxSize, size, dst + ([FirstByte(item)] + VarInt.Put(size)));
      if r.Ok? {
        ghost var head, body := [FirstByte(item)] + VarInt.Put(size), PutBody(item, maxSize);
        assert dst + head + body == dst + (head + body);
        assert r.value[|dst|..] == V5Codec.Encode(cfg, p).value;
        if Typed(p) { RoundTripsIff(cfg, p); }
      }
    }
  }
}
