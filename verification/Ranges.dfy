/** Byte ranges over fixed-size chunks: the slice arithmetic shared by the four
    range readers (`read_range`, `stream`, gRPC and REST). */
module Ranges {
  import opened Bytes
  import opened Types
  import opened Chunking

  /** The end of a requested range; length 0 asks for everything. */
  function RangeEnd(offset: nat, length: nat, total: nat): nat {
    if length == 0 then total
    else if offset + length < total then offset + length else total
  }

  /** `r` is what a request for `length` bytes at `offset` must return: nothing
      beyond the end, everything from `offset` on for length 0 or one that reaches
      further, and otherwise `length` bytes. */
  ghost predicate IsRange(data: Bytes, offset: nat, length: nat, r: Bytes) {
    && |r| == (if offset >= |data| then 0
               else if length == 0 || length > |data| - offset then |data| - offset
               else length)
    && forall i :: 0 <= i < |r| ==> r[i] == data[offset + i]
  }

  ghost function Slice(data: Bytes, offset: nat, length: nat): (r: Bytes)
    ensures IsRange(data, offset, length, r)
  {
    if offset >= |data| then []
    else if length == 0 || length > |data| - offset then data[offset..]
    else data[offset..][..length]
  }

  /** The chunk an offset falls into, and the chunk of the last byte before `end`. */
  function FirstChunk(offset: nat, size: nat): nat
    requires size > 0
  {
    offset / size
  }

  function LastChunk(end: nat, size: nat): nat
    requires size > 0 && end > 0
  {
    (end - 1) / size
  }

  /** The part of chunk `idx` inside the range `[offset, end)`, as each reader
      cuts it; `None` when a subtraction or a slice bound would be out of range. */
  function Piece(chunk: Bytes, idx: nat, offset: nat, end: nat, size: nat): Option<Bytes>
    requires size > 0 && end > 0
  {
    Cut(chunk, idx * size, idx == FirstChunk(offset, size), idx == LastChunk(end, size), offset, end)
  }

  function Cut(chunk: Bytes, chunkStart: nat, first: bool, last: bool, offset: nat, end: nat): Option<Bytes> {
    if (first && offset < chunkStart) || (last && end < chunkStart) then None
    else
      var sliceStart := if first then offset - chunkStart else 0;
      var wanted := if last then end - chunkStart else |chunk|;
      var sliceEnd := if wanted < |chunk| then wanted else |chunk|;
      if sliceStart > sliceEnd then None else Some(chunk[sliceStart..sliceEnd])
  }

  function Min(a: nat, b: nat): nat {
    if a < b then a else b
  }

  /** Chunk `i` holds the bytes from `i * size` on. */
  lemma {:induction false} ChunkAt(data: Bytes, size: nat, i: nat)
    requires size > 0 && i < |Split(data, size)|
    ensures i * size < |data|
    ensures Split(data, size)[i] == data[i * size..Min((i + 1) * size, |data|)]
    decreases i
  {
    if |data| < size {
      assert Split(data, size) == [data];
      assert data[..|data|] == data;
    } else {
      var rest := data[size..];
      assert Split(data, size) == [data[..size]] + Split(rest, size);
      if i > 0 {
        ChunkAt(rest, size, i - 1);
        assert (i - 1) * size + size == i * size && i * size + size == (i + 1) * size;
      } else {
        assert 1 * size == size;
      }
    }
  }

  /** A quotient locates the chunk an offset falls into. */
  lemma QuotientBounds(n: nat, size: nat)
    requires size > 0
    ensures (n / size) * size <= n < (n / size + 1) * size
  {
    assert n == (n / size) * size + n % size;
    assert (n / size + 1) * size == (n / size) * size + size;
  }

  lemma QuotientMonotone(a: nat, b: nat, size: nat)
    requires size > 0 && a <= b
    ensures a / size <= b / size
  {
    QuotientBounds(a, size);
    QuotientBounds(b, size);
    if a / size > b / size { Scale(b / size + 1, a / size, size); }
  }

  lemma Scale(a: nat, b: nat, size: nat)
    requires a <= b
    ensures a * size <= b * size
  {
    assert b * size == a * size + (b - a) * size;
  }

  /** The chunk an in-range offset falls into exists. */
  lemma IndexInRange(data: Bytes, size: nat, n: nat)
    requires size > 0 && n < |data|
    ensures n / size < |Split(data, size)|
  {
    SplitShape(data, size);
    QuotientBounds(n, size);
    var c := |Split(data, size)|;
    QuotientBounds(|data| + size - 1, size);
    assert (c + 1) * size == c * size + size;
    if n / size >= c { Scale(c, n / size, size); }
  }

  /** Where the range begins and ends relative to chunk `idx`. */
  lemma PieceBounds(size: nat, offset: nat, end: nat, idx: nat)
    requires size > 0 && offset < end
    requires offset / size <= idx <= (end - 1) / size
    ensures (idx + 1) * size == idx * size + size
    ensures offset < idx * size + size && idx * size < end
    ensures idx == offset / size <==> idx * size <= offset
    ensures idx == (end - 1) / size <==> end <= idx * size + size
  {
    var startIdx, endIdx := offset / size, (end - 1) / size;
    QuotientBounds(offset, size);
    QuotientBounds(end - 1, size);
    Scale(startIdx + 1, idx + 1, size);
    Scale(idx, endIdx, size);
    if idx > startIdx { Scale(startIdx + 1, idx, size); }
    if idx < endIdx { Scale(idx + 1, endIdx, size); }
  }

  /** Each piece is in bounds and is exactly the overlap of its chunk and the
      range. */
  lemma PieceIsOverlap(data: Bytes, size: nat, offset: nat, end: nat, idx: nat)
    requires size > 0 && offset < end <= |data|
    requires FirstChunk(offset, size) <= idx <= LastChunk(end, size)
    ensures idx < |Split(data, size)|
    ensures var lo := if idx == FirstChunk(offset, size) then offset else idx * size;
            var hi := Min((idx + 1) * size, end);
            offset <= lo <= hi && Piece(Split(data, size)[idx], idx, offset, end, size) == Some(data[lo..hi])
  {
    hide Split;
    QuotientMonotone(idx * size, end - 1, size) by { PieceBounds(size, offset, end, idx); }
    IndexInRange(data, size, end - 1);
    ChunkAt(data, size, idx);
    PieceBounds(size, offset, end, idx);
    var first, last := idx == FirstChunk(offset, size), idx == LastChunk(end, size);
    CutIsOverlap(data, idx * size, Min(idx * size + size, |data|), first, last, offset, end);
  }

  lemma CutIsOverlap(data: Bytes, from: nat, to: nat, first: bool, last: bool, offset: nat, end: nat)
    requires from < to <= |data| && offset < end <= |data|
    requires offset < to && from < end
    requires (first <==> from <= offset) && (last ==> end <= to) && (!last ==> to < end)
    ensures var lo := if first then offset else from;
            var hi := Min(to, end);
            Cut(data[from..to], from, first, last, offset, end) == Some(data[lo..hi])
  {
    var lo := if first then offset else from;
    var hi := Min(to, end);
    SliceOfSlice(data, from, to, lo, hi);
  }

  lemma SliceOfSlice(data: Bytes, from: nat, to: nat, lo: nat, hi: nat)
    requires from <= lo <= hi <= to <= |data|
    ensures data[from..to][lo - from..hi - from] == data[lo..hi]
  {
    var inner, outer := data[from..to][lo - from..hi - from], data[lo..hi];
    assert |inner| == |outer|;
    forall i | 0 <= i < |inner| ensures inner[i] == outer[i] {
      assert inner[i] == data[from..to][lo - from + i] == data[lo + i];
    }
  }

  /** How much of the range is emitted before chunk `idx`. */
  function Reached(offset: nat, end: nat, size: nat, idx: nat): nat
    requires size > 0
  {
    if idx <= FirstChunk(offset, size) then offset else Min(idx * size, end)
  }

  /** Emitting chunk `idx` extends the output up to the next chunk boundary. */
  lemma Extend(data: Bytes, size: nat, offset: nat, end: nat, idx: nat)
    requires size > 0 && offset < end <= |data|
    requires FirstChunk(offset, size) <= idx <= LastChunk(end, size)
    ensures idx < |Split(data, size)|
    ensures var p := Piece(Split(data, size)[idx], idx, offset, end, size);
            && p.Some? && p.value != []
            && Emitted(data, offset, end, size, idx) + p.value == Emitted(data, offset, end, size, idx + 1)
  {
    PieceIsOverlap(data, size, offset, end, idx);
    PieceBounds(size, offset, end, idx);
    var lo, hi := Reached(offset, end, size, idx), Reached(offset, end, size, idx + 1);
    assert data[offset..lo] + data[lo..hi] == data[offset..hi];
  }

  /** What has been emitted of the range `[offset, end)` before chunk `idx`. */
  function Emitted(data: Bytes, offset: nat, end: nat, size: nat, idx: nat): Bytes
    requires size > 0
  {
    var r := Reached(offset, end, size, idx);
    if offset <= r <= |data| then data[offset..r] else []
  }

  /** Nothing is emitted before the first chunk, and all of the range after the
      last. */
  lemma EmittedEnds(data: Bytes, offset: nat, end: nat, size: nat)
    requires size > 0 && offset < end <= |data|
    ensures FirstChunk(offset, size) <= LastChunk(end, size) < |Split(data, size)|
    ensures Emitted(data, offset, end, size, FirstChunk(offset, size)) == []
    ensures Emitted(data, offset, end, size, LastChunk(end, size) + 1) == data[offset..end]
  {
    hide Split;
    QuotientMonotone(offset, end - 1, size);
    IndexInRange(data, size, end - 1);
    PieceBounds(size, offset, end, LastChunk(end, size));
  }

  lemma SliceBounds(data: Bytes, offset: nat, length: nat)
    ensures offset >= |data| ==> Slice(data, offset, length) == []
    ensures var end := RangeEnd(offset, length, |data|);
            offset < |data| ==> offset < end <= |data| && Slice(data, offset, length) == data[offset..end]
  {
    if offset < |data| {
      var end := RangeEnd(offset, length, |data|);
      assert data[offset..end] == data[offset..][..end - offset];
    }
  }
}
