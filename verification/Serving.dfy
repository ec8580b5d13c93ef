/** Serving objects through the chunk cache: the gRPC `stream_media` loop and
    the REST `get_media` prefetch and body loops. */
module Serving {
  import opened Bytes
  import opened Types
  import opened ChunkFormat
  import opened Chunking
  import opened Ranges
  import opened IndexModel
  import opened Recovery
  import opened Accounts
  import opened BlobStore
  import opened Engine
  import opened HttpRange
  import Cache

  /** Every cached value is the content of its chunk. */
  ghost predicate Coherent(h: Hashes, es: seq<Cache.Entry>) {
    forall x :: x in es ==> x.data == h.origin(x.id)
  }

  lemma CoherentWithout(h: Hashes, es: seq<Cache.Entry>, id: ChunkId)
    requires Coherent(h, es)
    ensures Coherent(h, Cache.Without(es, id)) && Coherent(h, Cache.Front(es, id))
    ensures Cache.Has(es, id) ==> es[Cache.Position(es, id)].data == h.origin(id)
  {
  }

  lemma CoherentPut(h: Hashes, es: seq<Cache.Entry>, cap: nat, id: ChunkId, data: Bytes)
    requires Coherent(h, es) && data == h.origin(id)
    ensures Coherent(h, Cache.PutFront(es, cap, id, data))
  {
    CoherentWithout(h, es, id);
  }

  lemma CoherentPrefix(h: Hashes, es: seq<Cache.Entry>, front: seq<Cache.Entry>)
    requires Coherent(h, es) && front <= es
    ensures Coherent(h, front)
  {
    forall x | x in front ensures x in es { var i :| 0 <= i < |front| && front[i] == x; assert es[i] == x; }
  }

  /** Cache operations keep the cache coherent, and a hit returns the content. */
  lemma CoherentNext(h: Hashes, s: Cache.State, cap: nat, max: nat, op: Cache.Op)
    requires Coherent(h, s.entries) && Cache.Stored(s.entries) <= s.size
    requires op.Insert? ==> op.data == h.origin(op.id)
    ensures Coherent(h, Cache.Next(s, cap, max, op).entries)
    ensures Cache.PutReturns(s.entries, op.id).Some? ==> Cache.PutReturns(s.entries, op.id).value == h.origin(op.id)
  {
    hide Cache.Stored, Cache.Evict, Cache.PutFront, Cache.Without, Cache.Front, Coherent;
    CoherentWithout(h, s.entries, op.id);
    if op.Insert? {
      Cache.EvictShape(s, |op.data|, max);
      var kept := Cache.Evict(s, |op.data|, max).entries;
      CoherentPrefix(h, s.entries, kept);
      CoherentPut(h, kept, cap, op.id, op.data);
    }
  }

  /** Cache first, then storage with a cache fill. */
  method FetchChunk(e: StorageEngine, cache: Cache.ChunkCache, id: ChunkId) returns (r: Result<Bytes>)
    requires e.Valid() && cache.Valid() && Coherent(e.h, cache.cache.entries)
    modifies cache, cache.cache
    ensures cache.Valid() && Coherent(e.h, cache.cache.entries)
    ensures id in e.disk.files ==> r == Ok(e.h.origin(id))
    ensures r.Ok? && |r.value| <= cache.maxSize ==>
              cache.cache.entries != [] && cache.cache.entries[0] == Cache.Entry(id, r.value)
    ensures cache.hits + cache.misses == old(cache.hits) + old(cache.misses) + 1
  {
    hide StorageEngine.Valid, Coherent, Cache.Next, Cache.Stored;
    CoherentNext(e.h, cache.Model(), cache.cache.cap, cache.maxSize, Cache.Get(id));
    var cached := cache.Get(id);
    if cached.Some? { return Ok(cached.value); }
    r := e.ReadChunk(id);
    if r.Ok? {
      CoherentNext(e.h, cache.Model(), cache.cache.cap, cache.maxSize, Cache.Insert(id, r.value));
      cache.Insert(id, r.value);
    }
  }

  // ---- gRPC ----

  datatype MediaChunk = MediaChunk(sequence: nat, data: Bytes, offset: nat, isLast: bool)

  function Payloads(frames: seq<MediaChunk>): (ps: seq<Bytes>)
    ensures |ps| == |frames|
  {
    seq(|frames|, i requires 0 <= i < |frames| => frames[i].data)
  }

  /** Frame `i` carries number `i` and starts where the frames before it end. */
  ghost predicate Numbered(frames: seq<MediaChunk>, offset: nat) {
    forall i :: 0 <= i < |frames| ==>
      frames[i].sequence == i && frames[i].offset == offset + |Concat(Payloads(frames[..i]))| && frames[i].data != []
  }

  /** Exactly the final frame is marked as last. */
  ghost predicate LastMarked(frames: seq<MediaChunk>, complete: bool) {
    forall i :: 0 <= i < |frames| ==> (frames[i].isLast <==> complete && i == |frames| - 1)
  }

  lemma PayloadsSnoc(frames: seq<MediaChunk>, f: MediaChunk)
    ensures Payloads([]) == []
    ensures Payloads(frames + [f]) == Payloads(frames) + [f.data]
  {
  }

  lemma NumberedSnoc(frames: seq<MediaChunk>, f: MediaChunk, offset: nat)
    requires Numbered(frames, offset) && f.data != []
    requires f.sequence == |frames| && f.offset == offset + |Concat(Payloads(frames))|
    ensures Numbered(frames + [f], offset)
  {
    hide Concat, Payloads;
    var more := frames + [f];
    forall i | 0 <= i < |more|
      ensures more[i].sequence == i && more[i].offset == offset + |Concat(Payloads(more[..i]))| && more[i].data != []
    {
      assert more[..i] == frames[..i];
      assert frames[..|frames|] == frames;
    }
  }

  lemma NothingMarked()
    ensures LastMarked([], false)
  {
  }

  lemma MarkedSnoc(frames: seq<MediaChunk>, f: MediaChunk)
    requires LastMarked(frames, false)
    ensures LastMarked(frames + [f], f.isLast)
  {
  }

  method StreamMedia(e: StorageEngine, cache: Cache.ChunkCache, key: Key, offset: nat, length: nat)
    returns (r: Result<seq<MediaChunk>>)
    requires e.Valid() && cache.Valid() && Coherent(e.h, cache.cache.entries)
    requires offset + length < U64
    requires key in e.index.manifests ==> |e.index.manifests[key].chunks| <= U32
    modifies cache, cache.cache
    ensures cache.Valid() && Coherent(e.h, cache.cache.entries)
    ensures key !in e.Objects() ==> r == Err(NotFound)
    ensures key in e.Objects() ==>
      && r.Ok? && IsRange(e.Objects()[key], offset, length, Concat(Payloads(r.value)))
      && Numbered(r.value, offset) && LastMarked(r.value, true)
      && forall i :: 0 <= i < |r.value| ==> r.value[i].sequence < U32
  {
    hide StorageEngine.Valid, Cache.ChunkCache.Valid, OnDisk, Content, Slice, RangeEnd, Concat, Coherent;
    var found := e.GetManifest(key);
    if found == None { return Err(NotFound); }
    var manifest := found.value;
    e.ObjectOnDisk(key);
    ghost var data := Content(e.h, manifest.chunks);
    ChunkCount(e, key);
    SliceBounds(data, offset, length);
    ConcatSnoc([], []);
    PayloadsSnoc([], MediaChunk(0, [], 0, false));
    if offset >= manifest.totalSize { return Ok([]); }
    var end := RangeEnd(offset, length, manifest.totalSize);
    var frames := SendFrames(e, cache, manifest.chunks, data, offset, end, manifest.chunkSize);
    r := if frames == None then Err(NotFound) else Ok(frames.value);
  }

  lemma ChunkCount(e: StorageEngine, key: Key)
    requires e.Valid() && key in e.index.manifests
    ensures var m := e.index.manifests[key];
            |m.chunks| == |Split(Content(e.h, m.chunks), m.chunkSize)| && m.chunkSize > 0
  {
    hide StorageEngine.Valid, Content, Split;
    e.ObjectOnDisk(key);
  }

  /** The spawned sender: one numbered frame per chunk. */
  method SendFrames(e: StorageEngine, cache: Cache.ChunkCache, ids: seq<ChunkId>,
                    ghost data: Bytes, offset: nat, end: nat, size: nat)
    returns (r: Option<seq<MediaChunk>>)
    requires e.Valid() && cache.Valid() && Coherent(e.h, cache.cache.entries)
    requires OnDisk(e.h, e.disk.files.Keys, ids, data, size) && offset < end <= |data| && |ids| <= U32
    modifies cache, cache.cache
    ensures cache.Valid() && Coherent(e.h, cache.cache.entries)
    ensures r.Some? && Concat(Payloads(r.value)) == data[offset..end]
    ensures Numbered(r.value, offset) && LastMarked(r.value, true)
    ensures |r.value| == (end - 1) / size - offset / size + 1
    ensures forall i :: 0 <= i < |r.value| ==> r.value[i].sequence < U32
  {
    hide StorageEngine.Valid, Cache.ChunkCache.Valid, Coherent, Split, Piece, Emitted, FirstChunk, LastChunk, Concat;
    hide Payloads, Numbered, Sent, LastMarked;
    NothingMarked();
    EmittedEnds(data, offset, end, size);
    var startIdx, endIdx := FirstChunk(offset, size), LastChunk(end, size);
    var sequence, currentOffset := 0, offset;
    var frames: seq<MediaChunk> := [];
    SentNothing(offset);
    for idx := startIdx to Min(endIdx, |ids| - 1) + 1
      invariant cache.Valid() && Coherent(e.h, cache.cache.entries)
      invariant |frames| == sequence == idx - startIdx
      invariant Sent(frames, offset, Emitted(data, offset, end, size, idx))
      invariant currentOffset == offset + |Emitted(data, offset, end, size, idx)|
      invariant LastMarked(frames, idx == endIdx + 1)
    {
      Extend(data, size, offset, end, idx);
      var chunk := FetchChunk(e, cache, ids[idx]);
      if chunk.Err? { return None; }
      var slice := Piece(chunk.value, idx, offset, end, size);
      if slice == None { return None; }
      var frame := MediaChunk(sequence, slice.value, currentOffset, idx == Min(endIdx, |ids| - 1));
      SentNext(frames, frame, offset, Emitted(data, offset, end, size, idx));
      MarkedSnoc(frames, frame);
      frames := frames + [frame];
      currentOffset := currentOffset + |slice.value|;
      sequence := sequence + 1;
    }
    ChunkIndexes(offset, end, size);
    SentAll(frames, offset, Emitted(data, offset, end, size, endIdx + 1));
    r := Some(frames);
  }

  lemma ChunkIndexes(offset: nat, end: nat, size: nat)
    requires size > 0 && end > 0
    ensures FirstChunk(offset, size) == offset / size && LastChunk(end, size) == (end - 1) / size
  {
  }

  /** The frames so far carry `upto` and are numbered. */
  ghost predicate Sent(frames: seq<MediaChunk>, offset: nat, upto: Bytes) {
    Concat(Payloads(frames)) == upto && Numbered(frames, offset)
  }

  lemma SentNothing(offset: nat)
    ensures Sent([], offset, [])
  {
  }

  lemma SentNext(frames: seq<MediaChunk>, f: MediaChunk, offset: nat, upto: Bytes)
    requires Sent(frames, offset, upto) && f.data != []
    requires f.sequence == |frames| && f.offset == offset + |upto|
    ensures Sent(frames + [f], offset, upto + f.data)
  {
    hide Concat, Payloads, Numbered;
    NumberedSnoc(frames, f, offset);
    PayloadsSnoc(frames, f);
    ConcatSnoc(Payloads(frames), f.data);
  }

  lemma SentAll(frames: seq<MediaChunk>, offset: nat, upto: Bytes)
    requires Sent(frames, offset, upto)
    ensures Concat(Payloads(frames)) == upto && Numbered(frames, offset)
    ensures forall i :: 0 <= i < |frames| ==> frames[i].sequence == i
  {
  }

  // ---- REST ----

  /** `body` is `None` when the task sending it panics. */
  datatype Response =
    | NotFoundResponse
    | Response(partial: bool, contentType: Bytes, contentLength: nat, contentRange: Option<(nat, nat, nat)>,
               body: Option<seq<Bytes>>)

  /** `get_media`: the body is the parsed interval of the object, whatever the
      cache holds, and the headers describe that body. Only for an empty object
      does the sender fail: it asks for a first chunk that does not exist. */
  method GetMedia(e: StorageEngine, cache: Cache.ChunkCache, key: Key, header: Option<Bytes>) returns (r: Response)
    requires e.Valid() && cache.Valid() && Coherent(e.h, cache.cache.entries)
    modifies cache, cache.cache
    ensures cache.Valid() && Coherent(e.h, cache.cache.entries)
    ensures key !in e.Objects() ==> r == NotFoundResponse
    ensures key in e.Objects() ==>
      var data := e.Objects()[key];
      var range := ParseRange(header, |data|);
      && r.Response? && r.partial == range.isRange && r.contentType == e.Labels()[key].contentType
      && (r.body == None <==> data == [])
      && r.contentLength == |Slice(data, range.offset, range.length)|
      && (r.body.Some? ==> Concat(r.body.value) == Slice(data, range.offset, range.length))
      && (r.partial ==> r.contentRange == Some((range.offset, range.offset + r.contentLength - 1, |data|)))
      && (!r.partial ==> Slice(data, range.offset, range.length) == data && r.contentRange == None)
    ensures key in e.Objects() && Ignored(header) ==>
      && !r.partial && r.contentLength == |e.Objects()[key]| && r.contentRange == None
      && (r.body.Some? ==> Concat(r.body.value) == e.Objects()[key])
  {
    hide StorageEngine.Valid, Cache.ChunkCache.Valid, OnDisk, Content, Concat, Coherent, ParseRange, Slice, RangeEnd;
    var found := e.GetManifest(key);
    if found == None { return NotFoundResponse; }
    var manifest := found.value;
    if Ignored(header) { IgnoredIsWhole(header, manifest.totalSize); }
    e.ObjectOnDisk(key);
    ghost var data := Content(e.h, manifest.chunks);
    var totalSize, size := manifest.totalSize, manifest.chunkSize;
    var range := ParseRange(header, totalSize);
    var offset := range.offset;
    var end := RangeEnd(offset, range.length, totalSize);
    Interval(data, header);
    SliceBounds(data, offset, range.length);
    ChunkCount(e, key);
    Prefetch(e, cache, manifest.chunks, offset, end, size);
    var body := SendBody(e, cache, manifest.chunks, data, offset, end, size);
    var contentLength := if range.isRange then end - offset else totalSize;
    var contentRange := if range.isRange then Some((offset, end - 1, totalSize)) else None;
    r := Response(range.isRange, manifest.contentType, contentLength, contentRange, body);
  }

  lemma NoChunks(size: nat)
    requires size > 0
    ensures Split([], size) == [] && FirstChunk(0, size) == 0
  {
  }

  /** The parsed range is a non-empty interval of a non-empty object, and the
      whole object unless a partial response is sent. */
  lemma Interval(data: Bytes, header: Option<Bytes>)
    ensures var range := ParseRange(header, |data|);
            var end := RangeEnd(range.offset, range.length, |data|);
            && (if data == [] then range == WHOLE && end == 0 else range.offset < end <= |data|)
            && |Slice(data, range.offset, range.length)| == end - range.offset
            && (!range.isRange ==> end - range.offset == |data| && Slice(data, range.offset, range.length) == data)
  {
    hide ParseRange;
    assert data[0..|data|] == data;
  }

  /** Warm the cache with the first chunks of the range, at most three. */
  method Prefetch(e: StorageEngine, cache: Cache.ChunkCache, ids: seq<ChunkId>, offset: nat, end: nat, size: nat)
    requires e.Valid() && cache.Valid() && Coherent(e.h, cache.cache.entries) && size > 0
    modifies cache, cache.cache
    ensures cache.Valid() && Coherent(e.h, cache.cache.entries)
    ensures var first, last := offset / size, if end == 0 then 0 else (end - 1) / size;
            var until := Min(Min(last + 1, first + 3), |ids|);
            cache.hits + cache.misses ==
            old(cache.hits) + old(cache.misses) + if first < until then until - first else 0
  {
    hide StorageEngine.Valid, Cache.ChunkCache.Valid, Coherent;
    var startIdx: nat := FirstChunk(offset, size);
    var endIdx: nat := if end == 0 then 0 else LastChunk(end, size);
    var idx := startIdx;
    while idx < Min(Min(endIdx + 1, startIdx + 3), |ids|)
      invariant cache.Valid() && Coherent(e.h, cache.cache.entries)
      invariant startIdx <= idx && (idx > startIdx ==> idx <= Min(Min(endIdx + 1, startIdx + 3), |ids|))
      invariant cache.hits + cache.misses == old(cache.hits) + old(cache.misses) + (idx - startIdx)
    {
      var _ := FetchChunk(e, cache, ids[idx]);
      idx := idx + 1;
    }
  }

  /** The spawned body sender. */
  method SendBody(e: StorageEngine, cache: Cache.ChunkCache, ids: seq<ChunkId>,
                  ghost data: Bytes, offset: nat, end: nat, size: nat)
    returns (r: Option<seq<Bytes>>)
    requires e.Valid() && cache.Valid() && Coherent(e.h, cache.cache.entries)
    requires OnDisk(e.h, e.disk.files.Keys, ids, data, size)
    requires if data == [] then offset == end == 0 else offset < end <= |data|
    modifies cache, cache.cache
    ensures cache.Valid() && Coherent(e.h, cache.cache.entries)
    ensures r == None <==> data == []
    ensures r.Some? ==> offset <= end <= |data| && Concat(r.value) == data[offset..end]
  {
    hide StorageEngine.Valid, Cache.ChunkCache.Valid, Coherent, Split, Piece, Emitted, FirstChunk, LastChunk, Concat;
    if data != [] { EmittedEnds(data, offset, end, size); } else { NoChunks(size); }
    var startIdx := FirstChunk(offset, size);
    var endIdx := if end == 0 then 0 else LastChunk(end, size);
    var body: seq<Bytes> := [];
    ConcatSnoc([], []);
    var idx := startIdx;
    while idx <= Min(endIdx, if |ids| > 0 then |ids| - 1 else 0)
      invariant cache.Valid() && Coherent(e.h, cache.cache.entries)
      invariant startIdx <= idx && (data != [] ==> idx <= endIdx + 1)
      invariant data == [] ==> idx == 0
      invariant data != [] ==> Concat(body) == Emitted(data, offset, end, size, idx)
    {
      if idx >= |ids| { return None; }
      Extend(data, size, offset, end, idx);
      var chunk := FetchChunk(e, cache, ids[idx]);
      if chunk.Err? { return Some(body); }
      var slice := Piece(chunk.value, idx, offset, end, size);
      if slice == None { return None; }
      ConcatSnoc(body, slice.value);
      body := body + [slice.value];
      idx := idx + 1;
    }
    r := Some(body);
  }
}
