/** The `.kdc` chunk file format (chunk_format.rs): an 18-byte header of magic,
    version, flags, CRC32 and payload length, followed by the payload. */
module ChunkFormat {
  import opened Bytes
  import opened Types
  import opened Division

  const MAGIC: Bytes := [0x4B, 0x44, 0x42, 0x43]
  const VERSION: byte := 1
  const HEADER_SIZE := 18
  const U32 := 0x1_0000_0000
  const U64 := 0x1_0000_0000_0000_0000

  /** `n.to_le_bytes()` for a `width`-byte unsigned integer. */
  function ToLe(n: nat, width: nat): (b: Bytes)
    ensures |b| == width
    decreases width
  {
    if width == 0 then [] else [(n % 256) as byte] + ToLe(n / 256, width - 1)
  }

  /** `from_le_bytes`. */
  function FromLe(b: Bytes): nat {
    if b == [] then 0 else b[0] + 256 * FromLe(b[1..])
  }

  function Pow256(width: nat): nat {
    if width == 0 then 1 else 256 * Pow256(width - 1)
  }

  lemma {:induction false} LeRoundTrip(n: nat, width: nat)
    requires n < Pow256(width)
    ensures FromLe(ToLe(n, width)) == n
    decreases width
  {
    if width > 0 {
      LeRoundTrip(n / 256, width - 1);
      assert ToLe(n, width)[1..] == ToLe(n / 256, width - 1);
    }
  }

  lemma {:induction false} LeInverse(b: Bytes)
    ensures FromLe(b) < Pow256(|b|)
    ensures ToLe(FromLe(b), |b|) == b
  {
    if b != [] {
      var n := FromLe(b[1..]);
      LeInverse(b[1..]);
      LowByte(b[0], n);
      assert b == [b[0]] + b[1..];
    }
  }

  /** The least significant byte comes first. */
  lemma {:induction false} LeBytes(n: nat, width: nat, i: nat)
    requires i < width
    ensures Pow256(i) > 0 && ToLe(n, width)[i] == n / Pow256(i) % 256
    decreases width
  {
    if i > 0 {
      LeBytes(n / 256, width - 1, i - 1);
      DivDiv(n, 256, Pow256(i - 1));
    }
  }

  lemma DivDiv(n: nat, a: nat, b: nat)
    requires a > 0 && b > 0
    ensures a * b > 0 && n / a / b == n / (a * b)
  {
    var q, r, s := n / a / b, n / a % b, n % a;
    assert n == (q * b + r) * a + s;
    assert r * a <= (b - 1) * a;
    assert n == q * (a * b) + (r * a + s);
    DivUnique(n, a * b, q, r * a + s);
  }

  lemma LowByte(low: byte, high: nat)
    ensures (low + 256 * high) % 256 == low && (low + 256 * high) / 256 == high
  {
  }

  lemma Widths()
    ensures Pow256(4) == U32 && Pow256(8) == U64
  {
    assert Pow256(4) == 256 * Pow256(3) && Pow256(3) == 256 * Pow256(2) && Pow256(2) == 256 * Pow256(1);
    assert Pow256(8) == 256 * Pow256(7) && Pow256(7) == 256 * Pow256(6);
    assert Pow256(6) == 256 * Pow256(5) && Pow256(5) == 256 * Pow256(4);
  }

  /** A chunk file holding `data`, with an arbitrary flags byte. */
  function FileImage(crc: Bytes -> nat, flags: byte, data: Bytes): Bytes {
    MAGIC + [VERSION, flags] + ToLe(crc(data), 4) + ToLe(|data|, 8) + data
  }

  /** What `encode_chunk` writes: flags are always zero. */
  function Encoded(crc: Bytes -> nat, data: Bytes): Bytes {
    FileImage(crc, 0, data)
  }

  method EncodeChunk(crc: Bytes -> nat, data: Bytes) returns (buf: Bytes)
    ensures buf == Encoded(crc, data)
  {
    var sum := crc(data);
    var len := |data|;
    buf := [];
    buf := buf + MAGIC;
    buf := buf + [VERSION];
    buf := buf + [0];
    buf := buf + ToLe(sum, 4);
    buf := buf + ToLe(len, 8);
    buf := buf + data;
  }

  /** `decode_chunk`. A length field for which `header + length` overflows the
      64-bit addition ends in a panic, in checked and in unchecked builds. */
  function DecodeChunk(crc: Bytes -> nat, raw: Bytes): Result<Bytes> {
    if |raw| < HEADER_SIZE then Err(InvalidChunkFormat)
    else if raw[0..4] != MAGIC then Err(InvalidChunkFormat)
    else if raw[4] != VERSION then Err(InvalidChunkFormat)
    else
      var storedCrc := FromLe(raw[6..10]);
      var payloadLen := FromLe(raw[10..18]);
      if HEADER_SIZE + payloadLen >= U64 then Err(Panic)
      else if |raw| < HEADER_SIZE + payloadLen then Err(InvalidChunkFormat)
      else
        var payload := raw[HEADER_SIZE..HEADER_SIZE + payloadLen];
        if storedCrc != crc(payload) then Err(ChunkIntegrity) else Ok(payload)
  }

  lemma ImageFields(crc: Bytes -> nat, flags: byte, data: Bytes, rest: Bytes)
    ensures var raw := FileImage(crc, flags, data) + rest;
            && |raw| == HEADER_SIZE + |data| + |rest|
            && raw[0..4] == MAGIC && raw[4] == VERSION && raw[5] == flags
            && raw[6..10] == ToLe(crc(data), 4) && raw[10..18] == ToLe(|data|, 8)
            && raw[HEADER_SIZE..HEADER_SIZE + |data|] == data
            && raw[HEADER_SIZE + |data|..] == rest
  {
    var sum, len := ToLe(crc(data), 4), ToLe(|data|, 8);
    ConcatFields(MAGIC, [VERSION, flags], sum, len, data, rest);
  }

  lemma ConcatFields(m: Bytes, vf: Bytes, sum: Bytes, len: Bytes, data: Bytes, rest: Bytes)
    requires |m| == 4 && |vf| == 2 && |sum| == 4 && |len| == 8
    ensures var raw := m + vf + sum + len + data + rest;
            && raw[0..4] == m && raw[4] == vf[0] && raw[5] == vf[1] && raw[6..10] == sum && raw[10..18] == len
            && raw[18..18 + |data|] == data && raw[18 + |data|..] == rest
  {
  }

  /** `KDBC`, version 1, no flags, checksum and length in four and eight bytes,
      then the data. */
  lemma EncodedShape(crc: Bytes -> nat, data: Bytes)
    ensures var buf := Encoded(crc, data);
            && |buf| == 18 + |data| && buf[..6] == [75, 68, 66, 67, 1, 0] && buf[18..] == data
            && buf[6..10] == ToLe(crc(data), 4) && buf[10..18] == ToLe(|data|, 8)
  {
    hide ToLe;
    ImageFields(crc, 0, data, []);
    var buf := Encoded(crc, data);
    assert buf + [] == buf;
    assert buf[..6] == buf[0..4] + [buf[4], buf[5]];
    assert buf[18..18 + |data|] == buf[18..];
  }

  /** Whatever trails the encoding, and whatever the flags byte says, decoding
      returns the payload that was encoded. */
  lemma DecodeImage(crc: Bytes -> nat, flags: byte, data: Bytes, rest: Bytes)
    requires crc(data) < U32 && HEADER_SIZE + |data| < U64
    ensures DecodeChunk(crc, FileImage(crc, flags, data) + rest) == Ok(data)
  {
    ImageFields(crc, flags, data, rest);
    Widths();
    LeRoundTrip(crc(data), 4);
    LeRoundTrip(|data|, 8);
  }

  /** A chunk file in so many words: is there a complete header of this version,
      how long it says the payload is, and what its checksum is. */
  ghost predicate HasHeader(raw: Bytes) {
    |raw| >= 18 && raw[..4] == [75, 68, 66, 67] && raw[4] == 1
  }

  /** Which error a file that is refused is refused with. */
  lemma Refused(crc: Bytes -> nat, raw: Bytes)
    ensures !HasHeader(raw) ==> DecodeChunk(crc, raw) == Err(InvalidChunkFormat)
    ensures HasHeader(raw) ==>
      var length, sum := FromLe(raw[10..18]), FromLe(raw[6..10]);
      && (DecodeChunk(crc, raw) == Err(Panic) <==> 18 + length >= 0x1_0000_0000_0000_0000)
      && (DecodeChunk(crc, raw) == Err(InvalidChunkFormat) <==>
            |raw| < 18 + length < 0x1_0000_0000_0000_0000)
      && (DecodeChunk(crc, raw) == Err(ChunkIntegrity) <==>
            18 + length <= |raw| && 18 + length < 0x1_0000_0000_0000_0000 && crc(raw[18..18 + length]) != sum)
  {
    hide FromLe;
    if |raw| >= 18 { assert raw[0..4] == raw[..4]; }
  }

  lemma DecodeEncoded(crc: Bytes -> nat, data: Bytes)
    requires crc(data) < U32 && HEADER_SIZE + |data| < U64
    ensures DecodeChunk(crc, Encoded(crc, data)) == Ok(data)
  {
    DecodeImage(crc, 0, data, []);
    assert Encoded(crc, data) + [] == Encoded(crc, data);
  }

  /** Everything `decode_chunk` accepts is an encoding of what it returns, apart
      from the flags byte and the trailing bytes it ignores. */
  lemma AcceptedIsImage(crc: Bytes -> nat, raw: Bytes, data: Bytes)
    requires DecodeChunk(crc, raw) == Ok(data)
    ensures |raw| >= HEADER_SIZE + |data|
    ensures raw == FileImage(crc, raw[5], data) + raw[HEADER_SIZE + |data|..]
  {
    LeInverse(raw[6..10]);
    LeInverse(raw[10..18]);
    assert raw == raw[0..4] + [raw[4], raw[5]] + raw[6..10] + raw[10..18]
                  + raw[18..18 + |data|] + raw[18 + |data|..];
  }
}
