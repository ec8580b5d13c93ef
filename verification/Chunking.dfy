/** Fixed-size chunking of a byte string, independent of how it was fed in. */
module Chunking {
  import opened Bytes
  import opened Types
  import opened Division

  /** The complete chunks of `data`. */
  function FullChunks(data: Bytes, size: nat): (cs: seq<Bytes>)
    requires size > 0
    decreases |data|
  {
    if |data| < size then [] else [data[..size]] + FullChunks(data[size..], size)
  }

  /** What is left after the complete chunks. */
  function Leftover(data: Bytes, size: nat): (rest: Bytes)
    requires size > 0
    ensures |rest| < size
    decreases |data|
  {
    if |data| < size then data else Leftover(data[size..], size)
  }

  /** The chunks an object is stored as. */
  function Split(data: Bytes, size: nat): seq<Bytes>
    requires size > 0
  {
    FullChunks(data, size) + if Leftover(data, size) == [] then [] else [Leftover(data, size)]
  }

  /** Chunk boundaries do not depend on what comes later: feeding more bytes
      chunks only the leftover and the new bytes. */
  lemma {:induction false} Feed(a: Bytes, b: Bytes, size: nat)
    requires size > 0
    ensures FullChunks(a + b, size) == FullChunks(a, size) + FullChunks(Leftover(a, size) + b, size)
    ensures Leftover(a + b, size) == Leftover(Leftover(a, size) + b, size)
    decreases |a|
  {
    if |a| >= size {
      Feed(a[size..], b, size);
      assert (a + b)[..size] == a[..size] && (a + b)[size..] == a[size..] + b;
    }
  }

  /** One step of the write loop: at most enough bytes to fill the buffer. */
  lemma FeedStep(fed: Bytes, x: Bytes, size: nat)
    requires size > 0 && |Leftover(fed, size)| + |x| <= size
    ensures var buf := Leftover(fed, size) + x;
            if |buf| < size then FullChunks(fed + x, size) == FullChunks(fed, size) && Leftover(fed + x, size) == buf
            else FullChunks(fed + x, size) == FullChunks(fed, size) + [buf] && Leftover(fed + x, size) == []
  {
    var buf := Leftover(fed, size) + x;
    Feed(fed, x, size);
    if |buf| < size {
      assert FullChunks(fed, size) + [] == FullChunks(fed, size);
    } else {
      assert buf[..size] == buf && buf[size..] == [];
      assert FullChunks(buf, size) == [buf];
    }
  }

  /** The chunks flushed so far are a prefix of those of the whole input. */
  lemma FedPrefix(a: Bytes, b: Bytes, size: nat)
    requires size > 0
    ensures FullChunks(a, size) <= FullChunks(a + b, size)
  {
    Feed(a, b, size);
  }

  /** The chunks concatenate to the data. */
  lemma {:induction false} FullChunksConcat(data: Bytes, size: nat)
    requires size > 0
    ensures Concat(FullChunks(data, size)) + Leftover(data, size) == data
    decreases |data|
  {
    if |data| >= size {
      var rest := data[size..];
      FullChunksConcat(rest, size);
      assert FullChunks(data, size)[1..] == FullChunks(rest, size);
      assert data[..size] + (Concat(FullChunks(rest, size)) + Leftover(rest, size)) == data;
    }
  }

  lemma {:induction false} FullChunksShape(data: Bytes, size: nat)
    requires size > 0
    ensures forall i :: 0 <= i < |FullChunks(data, size)| ==> |FullChunks(data, size)[i]| == size
    ensures |FullChunks(data, size)| * size + |Leftover(data, size)| == |data|
    decreases |data|
  {
    if |data| >= size {
      FullChunksShape(data[size..], size);
    }
  }

  function CeilDiv(n: nat, size: nat): nat
    requires size > 0
  {
    (n + size - 1) / size
  }

  /** Chunks concatenate to the data, all but the last are exactly `size` long,
      none is empty, and there are ceil(n / size) of them. */
  lemma SplitShape(data: Bytes, size: nat)
    requires size > 0
    ensures var cs := Split(data, size);
            && Concat(cs) == data
            && |cs| == CeilDiv(|data|, size)
            && (forall i :: 0 <= i < |cs| - 1 ==> |cs[i]| == size)
            && (forall i :: 0 <= i < |cs| ==> 0 < |cs[i]| <= size)
  {
    var full, rest := FullChunks(data, size), Leftover(data, size);
    FullChunksConcat(data, size);
    FullChunksShape(data, size);
    if rest == [] {
      assert full + [] == full;
      CeilOf(|full|, 0, size);
    } else {
      ConcatSnoc(full, rest);
      CeilOf(|full|, |rest|, size);
    }
  }

  lemma CeilOf(q: nat, r: nat, size: nat)
    requires r < size
    ensures CeilDiv(q * size + r, size) == q + if r == 0 then 0 else 1
  {
    if r == 0 {
      DivUnique(q * size + size - 1, size, q, size - 1);
    } else {
      DivUnique(q * size + r + size - 1, size, q + 1, r - 1);
    }
  }

  // ---- content addressing ----

  function Ids(h: Hashes, cs: seq<Bytes>): (ids: seq<ChunkId>)
    ensures |ids| == |cs|
  {
    seq(|cs|, i requires 0 <= i < |cs| => h.sha(cs[i]))
  }

  /** The bytes a list of chunk ids stands for. */
  ghost function Originals(h: Hashes, ids: seq<ChunkId>): (cs: seq<Bytes>)
    ensures |cs| == |ids|
  {
    seq(|ids|, i requires 0 <= i < |ids| => h.origin(ids[i]))
  }

  ghost function Content(h: Hashes, ids: seq<ChunkId>): Bytes {
    Concat(Originals(h, ids))
  }

  ghost predicate AllUsed(h: Hashes, cs: seq<Bytes>) {
    forall i :: 0 <= i < |cs| ==> h.used(cs[i])
  }

  lemma OriginalsOfIds(h: Hashes, cs: seq<Bytes>)
    requires h.CollisionFree() && AllUsed(h, cs)
    ensures Originals(h, Ids(h, cs)) == cs
  {
  }

  /** A manifest as a finished session writes it: what its chunks stand for has
      the recorded size, checksum and chunk lengths. */
  ghost predicate WellFormed(h: Hashes, m: Manifest) {
    var data := Content(h, m.chunks);
    && m.chunkSize > 0
    && m.totalSize == |data|
    && m.checksum == h.sha(data)
    && Originals(h, m.chunks) == Split(data, m.chunkSize)
  }
}
