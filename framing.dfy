/** The wire format of one frame on the transport:

      offset 0..4 : total length N (header included), u32 little-endian
      offset 4..N : JPEG payload

    The encoder writes it (`(size as u32).to_le_bytes()` into bytes 0..4 of the
    512 KiB output buffer); the device reads the header back to know how many
    bytes belong to the frame. */
module Framing {
  import opened Types

  const U32Modulus: nat := 0x1_0000_0000

  /** The value of four bytes read as a little-endian u32. */
  function DecodeU32Le(b: seq<byte>): (n: nat)
    requires |b| == 4
    ensures n < U32Modulus
  {
    b[0] as nat + 256 * (b[1] as nat) + 65536 * (b[2] as nat) + 16777216 * (b[3] as nat)
  }

  /** `(n as u32).to_le_bytes()`: the cast keeps the low 32 bits, written
      least significant byte first. */
  function U32LeBytes(n: nat): (b: seq<byte>)
    ensures |b| == 4
    ensures DecodeU32Le(b) == n % U32Modulus
  {
    var v := n % U32Modulus;
    var b0, b1, b2, b3 := v % 256, v / 256 % 256, v / 65536 % 256, v / 16777216;
    assert v == b0 + 256 * b1 + 65536 * b2 + 16777216 * b3 by {
      DivModSplit(v);
    }
    [b0 as byte, b1 as byte, b2 as byte, b3 as byte]
  }

  lemma DivModSplit(v: nat)
    requires v < U32Modulus
    ensures v / 16777216 < 256
    ensures v == v % 256 + 256 * (v / 256 % 256) + 65536 * (v / 65536 % 256) + 16777216 * (v / 16777216)
  {
    assert v / 256 == v / 256 % 256 + 256 * (v / 65536) by {
      assert v / 65536 == (v / 256) / 256;
    }
    assert v / 65536 == v / 65536 % 256 + 256 * (v / 16777216) by {
      assert v / 16777216 == (v / 65536) / 256;
    }
  }

  /** Encoding is the inverse of decoding: every 4-byte header is the encoding
      of the length it denotes. */
  lemma EncodeDecode(b: seq<byte>)
    requires |b| == 4
    ensures U32LeBytes(DecodeU32Le(b)) == b
  {
    var n := DecodeU32Le(b);
    var e := U32LeBytes(n);
    assert n % U32Modulus == n;
    ByteOfSum(b[0] as nat, b[1] as nat, b[2] as nat, b[3] as nat);
  }

  lemma ByteOfSum(b0: nat, b1: nat, b2: nat, b3: nat)
    requires b0 < 256 && b1 < 256 && b2 < 256 && b3 < 256
    ensures var v := b0 + 256 * b1 + 65536 * b2 + 16777216 * b3;
      v % 256 == b0 && v / 256 % 256 == b1 && v / 65536 % 256 == b2 && v / 16777216 == b3
  {
    var v := b0 + 256 * b1 + 65536 * b2 + 16777216 * b3;
    assert v / 256 == b1 + 256 * b2 + 65536 * b3;
    assert v / 65536 == b2 + 256 * b3;
    assert v / 16777216 == b3;
  }

  /** The meaningful prefix of an output buffer: header then payload. */
  function Framed(payload: seq<byte>): (f: seq<byte>)
    requires |payload| + 4 < U32Modulus
    ensures |f| == |payload| + 4
    ensures DecodeU32Le(f[..4]) == |f|
    ensures f[4..] == payload
  {
    U32LeBytes(|payload| + 4) + payload
  }

  /** The reader's side: the payload of a buffer whose header announces a
      length that fits in the buffer; `None` when the header is malformed. */
  function ParseFrame(buf: seq<byte>): (r: Option<seq<byte>>)
    ensures r.Some? ==> |buf| >= 4 && |r.value| + 4 == DecodeU32Le(buf[..4]) <= |buf|
    ensures r.Some? ==> buf[4..4 + |r.value|] == r.value
  {
    if |buf| < 4 then None
    else
      var n := DecodeU32Le(buf[..4]);
      if 4 <= n <= |buf| then Some(buf[4..n]) else None
  }

  /** Framing round trip: a framed payload followed by anything at all (the
      rest of the 512 KiB buffer) parses back to exactly that payload. */
  lemma {:induction false} ParseFramed(payload: seq<byte>, rest: seq<byte>)
    requires |payload| + 4 < U32Modulus
    ensures ParseFrame(Framed(payload) + rest) == Some(payload)
  {
    var buf := Framed(payload) + rest;
    assert buf[..4] == Framed(payload)[..4];
    assert buf[4..|payload| + 4] == payload;
  }

  /** Conversely, every buffer that parses is the framing of its payload. */
  lemma {:induction false} ParsedIsFramed(buf: seq<byte>)
    requires ParseFrame(buf).Some?
    ensures var p := ParseFrame(buf).value;
      |p| + 4 < U32Modulus && buf[..|p| + 4] == Framed(p)
  {
    var p := ParseFrame(buf).value;
    EncodeDecode(buf[..4]);
    assert buf[..|p| + 4] == buf[..4] + p;
  }
}
