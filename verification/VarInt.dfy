/**
  Variable byte integers (section 2.2.3 of MQTT 3.1.1, section 1.5.5 of MQTT 5.0):
  src/utils.rs:140-164, src/utils.rs:283-306 and src/v5/codec/encode.rs:213-246.
 */
module VarInt {
  import opened Wrappers
  import opened Words
  import opened Bytes

  const MAX_VARINT := 268435455

  // ----- Writing

  /** The bytes written for a length; a length over the maximum panics. */
  function Put(n: nat): (b: seq<byte>)
    requires n <= MAX_VARINT
    ensures 1 <= |b| <= 4
  {
    if n <= 127 then [n]
    else if n <= 16383 then [n % 128 + 128, n / 128]
    else if n <= 2097151 then [n % 128 + 128, n / 128 % 128 + 128, n / 16384]
    else [n % 128 + 128, n / 128 % 128 + 128, n / 16384 % 128 + 128, n / 2097152]
  }

  // ----- Reading

  /** The seven value bits of a byte. */
  function Low7(b: byte): nat {
    b as int % 128
  }

  /** Reads on with `len` read so far and the next byte weighing `weight`. */
  function GetFrom(src: seq<byte>, weight: nat, len: nat): (r: Decoded<nat>)
    ensures r.Ok? ==> |r.value.rest| < |src|
  {
    if src == [] then Err(MalformedPacket)
    else
      var v := len + Low7(src[0]) * weight;
      if src[0] < 128 then Ok(Read(v, src[1..]))
      else if weight >= 2097152 then Err(InvalidLength)
      else GetFrom(src[1..], weight * 128, v)
  }

  function Get(src: seq<byte>): Decoded<nat> {
    GetFrom(src, 1, 0)
  }

  /** The cursor loop of the source. */
  method GetLoop(src: seq<byte>) returns (r: Decoded<nat>)
    ensures r == Get(src)
  {
    var weight: nat, len: nat, cur := 1, 0, src;
    while true
      invariant GetFrom(cur, weight, len) == Get(src)
      decreases |cur|
    {
      if cur == [] {
        return Err(MalformedPacket);
      }
      var val := cur[0];
      cur := cur[1..];
      len := len + Low7(val) * weight;
      if val < 128 {
        return Ok(Read(len, cur));
      } else {
        if weight >= 2097152 {
          return Err(InvalidLength);
        }
        weight := weight * 128;
      }
    }
  }

  /** Four bytes at most are read, and the value stays below the maximum. */
  lemma GetBounds(src: seq<byte>)
    ensures Get(src).Ok? ==> Get(src).value.value <= MAX_VARINT
    ensures Get(src).Ok? ==> |src| - |Get(src).value.rest| <= 4
    ensures Get(src).Ok? ==> Get(src).value.rest == src[|src| - |Get(src).value.rest|..]
  {
    Unfold(src);
  }

  /** The reader written out byte by byte. */
  lemma Unfold(src: seq<byte>)
    ensures Get(src) ==
            if |src| == 0 then Err(MalformedPacket)
            else if src[0] < 128 then Ok(Read(src[0], src[1..]))
            else if |src| == 1 then Err(MalformedPacket)
            else if src[1] < 128 then Ok(Read(Low7(src[0]) + src[1] as int * 128, src[2..]))
            else if |src| == 2 then Err(MalformedPacket)
            else if src[2] < 128 then Ok(Read(Low7(src[0]) + Low7(src[1]) * 128 + src[2] as int * 16384, src[3..]))
            else if |src| == 3 then Err(MalformedPacket)
            else if src[3] < 128 then
              Ok(Read(Low7(src[0]) + Low7(src[1]) * 128 + Low7(src[2]) * 16384 + src[3] as int * 2097152, src[4..]))
            else Err(InvalidLength)
  {
    if |src| > 0 && src[0] >= 128 {
      var v0 := Low7(src[0]);
      assert Get(src) == GetFrom(src[1..], 128, v0);
      if |src| > 1 && src[1] >= 128 {
        assert src[1..][0] == src[1] && src[1..][1..] == src[2..];
        var v1 := v0 + Low7(src[1]) * 128;
        assert Get(src) == GetFrom(src[2..], 16384, v1);
        if |src| > 2 && src[2] >= 128 {
          assert src[2..][0] == src[2] && src[2..][1..] == src[3..];
          var v2 := v1 + Low7(src[2]) * 16384;
          assert Get(src) == GetFrom(src[3..], 2097152, v2);
          if |src| > 3 {
            assert src[3..][0] == src[3] && src[3..][1..] == src[4..];
          }
        }
      }
    }
  }

  /** The four groups of seven bits of a length. */
  lemma Groups(n: nat)
    requires n <= MAX_VARINT
    ensures n == n % 128 + n / 128 % 128 * 128 + n / 16384 % 128 * 16384 + n / 2097152 * 2097152
    ensures n / 2097152 < 128
    ensures n < 2097152 ==> n / 16384 % 128 == n / 16384 && n / 2097152 == 0
    ensures n < 16384 ==> n / 128 % 128 == n / 128 && n / 16384 == 0
  {
    assert n / 128 / 128 == n / 16384;
    assert n / 16384 / 128 == n / 2097152;
  }

  lemma RoundTrip(n: nat, rest: seq<byte>)
    requires n <= MAX_VARINT
    ensures Get(Put(n) + rest) == Ok(Read(n, rest))
  {
    Groups(n);
    var p := Put(n);
    var s := p + rest;
    assert s[|p|..] == rest && forall i :: 0 <= i < |p| ==> s[i] == p[i];
    Unfold(s);
  }

  /** An answer does not change when more bytes arrive; only "no more bytes" may. */
  lemma Stable(src: seq<byte>, more: seq<byte>)
    requires Get(src) != Err(MalformedPacket)
    ensures Get(src + more) ==
            if Get(src).Err? then Get(src) else Ok(Get(src).value.(rest := Get(src).value.rest + more))
  {
    var s := src + more;
    Unfold(src);
    Unfold(s);
    assert forall i :: 0 <= i < |src| ==> s[i] == src[i];
    if Get(src).Ok? {
      var k := |src| - |Get(src).value.rest|;
      assert s[k..] == src[k..] + more;
    }
  }

  // ----- The length of an encoded length

  /** How many groups of seven bits a word has. */
  function Len(n: nat): (k: nat)
    ensures 1 <= k <= 10
  {
    if n < 128 then 1
    else if n < 16384 then 2
    else if n < 2097152 then 3
    else if n < 268435456 then 4
    else if n < 0x8_0000_0000 then 5
    else if n < 0x400_0000_0000 then 6
    else if n < 0x2_0000_0000_0000 then 7
    else if n < 0x100_0000_0000_0000 then 8
    else if n < 0x8000_0000_0000_0000 then 9
    else 10
  }

  lemma LenWithin(n: nat)
    requires n <= MAX_VARINT
    ensures Len(n) <= 4
  {
  }

  lemma LenIsWritten(n: nat)
    requires n <= MAX_VARINT
    ensures |Put(n)| == Len(n)
  {
  }

  function Repeat(n: nat, v: nat): seq<nat> {
    seq(n, _ => v)
  }

  /** The tables of the source, indexed by the number of leading zero bits. */
  const TABLE_64: seq<nat> :=
    [10] + Repeat(7, 9) + Repeat(7, 8) + Repeat(7, 7) + Repeat(7, 6) + Repeat(7, 5) + Repeat(7, 4)
    + Repeat(7, 3) + Repeat(7, 2) + Repeat(8, 1)

  const TABLE_32: seq<nat> := Repeat(4, 5) + Repeat(7, 4) + Repeat(7, 3) + Repeat(7, 2) + Repeat(8, 1)

  /** The position of the highest set bit, counted from one. */
  function BitLen(n: nat): nat {
    if n == 0 then 0 else 1 + BitLen(n / 2)
  }

  function Pow2(n: nat): (p: nat)
    ensures p >= 1
  {
    if n == 0 then 1 else 2 * Pow2(n - 1)
  }

  lemma {:induction false} BitLenRange(n: nat, width: nat)
    ensures n < Pow2(width) <==> BitLen(n) <= width
  {
    if n != 0 && width != 0 {
      BitLenRange(n / 2, width - 1);
    }
  }

  lemma Pow2Sevens()
    ensures Pow2(0) == 1 && Pow2(7) == 128 && Pow2(14) == 16384 && Pow2(21) == 2097152 && Pow2(28) == 268435456
    ensures Pow2(35) == 0x8_0000_0000 && Pow2(42) == 0x400_0000_0000 && Pow2(49) == 0x2_0000_0000_0000
    ensures Pow2(56) == 0x100_0000_0000_0000 && Pow2(63) == 0x8000_0000_0000_0000
    ensures Pow2(32) == U32 && Pow2(64) == USIZE
  {
  }

  lemma LenOfBits(n: usize)
    ensures BitLen(n) <= 64
    ensures n < U32 ==> BitLen(n) <= 32
    ensures Len(n) == if n == 0 then 1 else (BitLen(n) + 6) / 7
  {
    hide BitLen, Pow2;
    Pow2Sevens();
    BitLenRange(n, 0);
    BitLenRange(n, 7);
    BitLenRange(n, 14);
    BitLenRange(n, 21);
    BitLenRange(n, 28);
    BitLenRange(n, 32);
    BitLenRange(n, 35);
    BitLenRange(n, 42);
    BitLenRange(n, 49);
    BitLenRange(n, 56);
    BitLenRange(n, 63);
    BitLenRange(n, 64);
  }

  /** The table look-up on 64-bit words counts the groups of seven bits, for every word. */
  lemma Table64IsLen(n: usize)
    ensures BitLen(n) <= 64 && TABLE_64[64 - BitLen(n)] == Len(n)
  {
    LenOfBits(n);
  }

  /** The table look-up on 32-bit words counts the groups of seven bits, for every word. */
  lemma Table32IsLen(n: u32)
    ensures BitLen(n) <= 32 && TABLE_32[32 - BitLen(n)] == Len(n)
  {
    LenOfBits(n);
  }

  /** Recovers a length from that length plus the length of its own encoding. */
  function FromSize(val: nat): nat
    requires val >= 1
  {
    var overSize := Len(val);
    var res := val - overSize + 1;
    val - Len(res)
  }

  lemma FromSizeInverts(n: nat)
    requires n <= MAX_VARINT
    ensures FromSize(n + Len(n)) == n
  {
  }
}
