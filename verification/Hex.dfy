/** Lower-case hexadecimal, as used for chunk ids and chunk file paths. */
module Hex {
  import opened Bytes
  import opened Types

  function Digit(n: nat): byte
    requires n < 16
  {
    if n < 10 then 48 + n else 87 + n
  }

  function Value(d: byte): Option<nat> {
    if 48 <= d < 58 then Some(d - 48) else if 97 <= d < 103 then Some(d - 87) else None
  }

  function Encode(b: Bytes): (s: Bytes)
    ensures |s| == 2 * |b|
  {
    if b == [] then [] else [Digit(b[0] / 16), Digit(b[0] % 16)] + Encode(b[1..])
  }

  function Decode(s: Bytes): Option<Bytes> {
    if s == [] then Some([])
    else if |s| == 1 then None
    else match (Value(s[0]), Value(s[1]), Decode(s[2..]))
      case (Some(h), Some(l), Some(rest)) => Some([16 * h + l] + rest)
      case _ => None
  }

  lemma DigitTable(n: nat)
    requires n < 16
    ensures Digit(n) == "0123456789abcdef"[n] as int
  {
  }

  /** Two lower-case digits a byte, the high one first. */
  lemma {:induction false} EncodeDigits(b: Bytes, i: nat)
    requires i < |b|
    ensures Encode(b)[2 * i] == "0123456789abcdef"[b[i] / 16] as int
    ensures Encode(b)[2 * i + 1] == "0123456789abcdef"[b[i] % 16] as int
  {
    hide Digit;
    if i > 0 {
      EncodeDigits(b[1..], i - 1);
    } else {
      DigitTable(b[0] / 16);
      DigitTable(b[0] % 16);
    }
  }

  lemma {:induction false} RoundTrip(b: Bytes)
    ensures Decode(Encode(b)) == Some(b)
  {
    if b != [] {
      RoundTrip(b[1..]);
      assert Encode(b)[2..] == Encode(b[1..]);
      assert b == [b[0]] + b[1..];
    }
  }

  predicate IsDigit(d: byte) {
    Value(d).Some?
  }

  lemma {:induction false} OnlyDigits(b: Bytes)
    ensures forall i :: 0 <= i < |Encode(b)| ==> IsDigit(Encode(b)[i])
  {
    if b != [] { OnlyDigits(b[1..]); }
  }

  lemma {:induction false} DecodeNeedsDigits(s: Bytes, i: nat)
    requires i < |s| && !IsDigit(s[i])
    ensures Decode(s) == None
  {
    if i >= 2 { DecodeNeedsDigits(s[2..], i - 2); }
  }

  /** `BlobStore::chunk_path`: `chunks/ab/cd/abcd....kdc`, two directory levels
      taken from the first two id bytes. */
  function ChunkPath(id: ChunkId): Bytes
    requires |id| == 32
  {
    [99, 104, 117, 110, 107, 115, 47] + Encode(id[0..1]) + [47] + Encode(id[1..2]) + [47]
    + Encode(id) + [46, 107, 100, 99]
  }

  /** `chunks/`, the first two bytes as directories, the whole id, `.kdc`. */
  lemma ChunkPathShape(id: ChunkId)
    requires |id| == 32
    ensures var p, hex := ChunkPath(id), Encode(id);
      && |p| == 81 && p[..7] == [99, 104, 117, 110, 107, 115, 47] && p[9] == p[12] == 47
      && p[7..9] == hex[..2] && p[10..12] == hex[2..4] && p[13..77] == hex && p[77..] == [46, 107, 100, 99]
  {
    var p, hex := ChunkPath(id), Encode(id);
    assert id[0..1] == [id[0]] && id[1..2] == [id[1]] && id[1..][0] == id[1];
    assert Encode([id[0]]) == [Digit(id[0] / 16), Digit(id[0] % 16)];
    assert Encode([id[1]]) == [Digit(id[1] / 16), Digit(id[1] % 16)];
    assert hex[..2] == Encode(id[0..1]);
    assert hex == [Digit(id[0] / 16), Digit(id[0] % 16)] + Encode(id[1..]);
    assert Encode(id[1..])[..2] == Encode(id[1..2]);
    assert hex[2..4] == Encode(id[1..])[..2];
  }

  /** Distinct chunks live in distinct files, so files can be keyed by id. */
  lemma ChunkPathInjective(a: ChunkId, b: ChunkId)
    requires |a| == 32 && |b| == 32
    requires ChunkPath(a) == ChunkPath(b)
    ensures a == b
  {
    assert ChunkPath(a)[13..77] == Encode(a);
    assert ChunkPath(b)[13..77] == Encode(b);
    RoundTrip(a);
    RoundTrip(b);
  }
}
