/** Whole uploads, as the gRPC and REST store workers drive a session, and what
    a crash during or after one leaves behind. */
module Upload {
  import opened Bytes
  import opened Types
  import opened Chunking
  import opened ChunkFormat
  import opened LogText
  import opened IndexModel
  import opened Refs
  import opened Recovery
  import opened Accounts
  import opened Disk
  import opened BlobStore
  import opened Engine

  ghost predicate TooBig(max: nat, size: nat) {
    max != 0 && size > max
  }

  /** `begin_store`, one `write` per received part, `abort` on the first refusal,
      `finish` at the end. The outcome depends on the concatenated bytes only;
      a refused upload leaves manifests and reference counts as they were, keeps
      every tracked file and leaves no new untracked one. */
  method Run(e: StorageEngine, key: Key, contentType: Bytes, metadata: map<Bytes, Bytes>, parts: seq<Bytes>, now: int)
    returns (r: Result<Manifest>)
    requires e.Valid() && AllUsed(e.h, Split(Concat(parts), e.chunkSize))
    modifies e`held, e.index, e.disk
    ensures e.Valid()
    ensures r == if !ValidKey(key) then Err(InvalidKey)
                 else if TooBig(e.maxObjectSize, |Concat(parts)|) then Err(TooLarge)
                 else Ok(BuildManifest(e.h, key, Concat(parts), e.chunkSize, contentType, metadata, now))
    ensures r.Ok? ==>
      && r.value.key == key && r.value.contentType == contentType && r.value.metadata == metadata
      && r.value.createdAt == now && r.value.updatedAt == now && r.value.chunkSize == e.chunkSize
      && r.value.totalSize == |Concat(parts)| && r.value.checksum == e.h.sha(Concat(parts))
    ensures r.Ok? ==> e.index.manifests == old(e.index.manifests)[key := r.value]
    ensures e.Objects() == if r.Ok? then old(e.Objects())[key := Concat(parts)] else old(e.Objects())
    ensures old(e.disk.files.Keys) * e.index.chunkLocations.Keys <= e.disk.files.Keys
    ensures r.Err? ==>
      && e.index.State() == old(e.index.State())
      && e.disk.files.Keys - e.index.chunkLocations.Keys <= old(e.disk.files.Keys)
    ensures Sum(e.held) == Sum(old(e.held)) && old(e.held) <= e.held
    ensures old(e.disk.history) <= e.disk.history
    ensures e.index.durability == Sync ==>
              SafeSince(e.disk.history, |old(e.disk.history)|, {old(e.index.manifests), e.index.manifests})
  {
    hide StorageEngine.Valid, StoreSession.Ready, Concat, AllUsed, Split, Grew, SafeSince, ValidKey, Sum;
    hide BuildManifest, ObjectsOf, TooBig;
    ghost var before, synced := e.Stocked(), e.Synced();
    ghost var held, m := e.held, e.index.manifests;
    NothingSince(e.disk.history, {m});
    StartPositive(e);
    FinishedHolds(held);
    var begun := e.BeginStore(key, contentType, metadata);
    if begun.Err? {
      assert {m, e.index.manifests} == {m};
      return Err(InvalidKey);
    }
    var session := begun.value;
    GrewNothing(before, synced, m);
    var fits, _ := FeedAll(e, session, parts, before);
    assert e.held == (held + [multiset{}])[|held| := multiset(session.chunks)];
    if !fits {
      GiveUp(e, session, before);
      assert e.held == held + [multiset{}];
      assert {m, e.index.manifests} == {m};
      return Err(TooLarge);
    }
    GrewMeans(before, e.Stocked(), session.chunks, synced, m);
    ghost var sofar := e.disk.history;
    var manifest := session.Finish(now);
    if e.index.durability == Sync {
      ghost var both := {m, e.index.manifests};
      LongerSince(sofar, e.disk.history, |before.history|, {m}, both, both);
    }
    assert e.held == held + [multiset{}];
    r := Ok(manifest);
  }

  /** One `write` per part, up to the first that is refused. */
  method FeedAll(e: StorageEngine, session: StoreSession, parts: seq<Bytes>, ghost before: Stock)
    returns (fits: bool, ghost n: nat)
    requires e.Valid() && session.engine == e && session.Valid() && session.Fed() == []
    requires AllUsed(e.h, Split(Concat(parts), e.chunkSize))
    requires Grew(before, e.Stocked(), session.chunks, e.Synced(), e.index.manifests)
    modifies session, e`held, e.index`chunkLocations, e.index`logEntries, e.index`appended, e.disk
    ensures e.Valid() && session.Valid()
    ensures fits == !TooBig(e.maxObjectSize, |Concat(parts)|)
    ensures n <= |parts| && session.Fed() == Concat(parts[..n]) && (fits ==> n == |parts| && parts[..n] == parts)
    ensures e.held == old(e.held)[session.slot := multiset(session.chunks)]
    ensures Grew(before, e.Stocked(), session.chunks, e.Synced(), e.index.manifests)
  {
    hide StorageEngine.Valid, StoreSession.Ready, Concat, AllUsed, FullChunks, Split, Grew;
    ConcatSnoc([], []);
    assert e.held[session.slot := multiset(session.chunks)] == e.held;
    for i := 0 to |parts|
      invariant e.Valid() && session.Valid()
      invariant session.Fed() == Concat(parts[..i])
      invariant !TooBig(e.maxObjectSize, |Concat(parts[..i])|)
      invariant e.held == old(e.held)[session.slot := multiset(session.chunks)]
      invariant Grew(before, e.Stocked(), session.chunks, e.Synced(), e.index.manifests)
    {
      fits := FeedOne(e, session, parts, i, before);
      if !fits { return false, i; }
    }
    assert parts[..|parts|] == parts;
    return true, |parts|;
  }

  /** One received part. */
  method FeedOne(e: StorageEngine, session: StoreSession, parts: seq<Bytes>, i: nat, ghost before: Stock)
    returns (fits: bool)
    requires e.Valid() && session.engine == e && session.Valid()
    requires i < |parts| && session.Fed() == Concat(parts[..i]) && !TooBig(e.maxObjectSize, |Concat(parts[..i])|)
    requires AllUsed(e.h, Split(Concat(parts), e.chunkSize))
    requires Grew(before, e.Stocked(), session.chunks, e.Synced(), e.index.manifests)
    modifies session, e`held, e.index`chunkLocations, e.index`logEntries, e.index`appended, e.disk
    ensures e.Valid() && session.Valid()
    ensures fits ==> session.Fed() == Concat(parts[..i + 1]) && !TooBig(e.maxObjectSize, |Concat(parts[..i + 1])|)
    ensures !fits ==> session.Fed() == Concat(parts[..i]) && TooBig(e.maxObjectSize, |Concat(parts)|)
    ensures e.held == old(e.held)[session.slot := multiset(session.chunks)]
    ensures Grew(before, e.Stocked(), session.chunks, e.Synced(), e.index.manifests)
  {
    hide StorageEngine.Valid, StoreSession.Valid, Concat, AllUsed, FullChunks, Split, Grew;
    StartPositive(e);
    PartUsed(e.h, parts, i, e.chunkSize);
    fits := WritePart(e, session, parts[i], before);
    if !fits { TooBigStays(e.maxObjectSize, parts, i); }
  }

  /** A write, as part of all the writes since `before`. */
  method WritePart(e: StorageEngine, session: StoreSession, data: Bytes, ghost before: Stock) returns (fits: bool)
    requires e.Valid() && session.engine == e && session.Valid() && e.chunkSize > 0
    requires AllUsed(e.h, FullChunks(session.Fed() + data, e.chunkSize))
    requires Grew(before, e.Stocked(), session.chunks, e.Synced(), e.index.manifests)
    modifies session, e`held, e.index`chunkLocations, e.index`logEntries, e.index`appended, e.disk
    ensures e.Valid() && session.Valid()
    ensures fits == !TooBig(e.maxObjectSize, |old(session.Fed())| + |data|)
    ensures session.Fed() == if fits then old(session.Fed()) + data else old(session.Fed())
    ensures e.held == old(e.held)[session.slot := multiset(session.chunks)]
    ensures Grew(before, e.Stocked(), session.chunks, e.Synced(), e.index.manifests)
  {
    hide StorageEngine.Valid, StoreSession.Valid, AllUsed, FullChunks, Grew;
    ghost var middle, known := e.Stocked(), session.chunks;
    var w := session.Write(data);
    Rejoin(known, session.chunks);
    GrewThen(before, middle, e.Stocked(), known, session.chunks[|known|..], e.Synced(), e.index.manifests);
    fits := w.Ok?;
  }

  lemma Rejoin(known: seq<ChunkId>, all: seq<ChunkId>)
    requires known <= all
    ensures all == known + all[|known|..]
  {
  }

  /** An upload its caller gives up after any writes, one refused as too large
      among them: manifests and reference counts are exactly as before, every
      tracked file is still there, and no chunk that only this upload used has
      one. */
  method Abandon(e: StorageEngine, key: Key, contentType: Bytes, metadata: map<Bytes, Bytes>, parts: seq<Bytes>)
    returns (ghost fed: Bytes)
    requires e.Valid() && ValidKey(key) && AllUsed(e.h, Split(Concat(parts), e.chunkSize))
    modifies e`held, e.index, e.disk
    ensures e.Valid() && e.index.State() == old(e.index.State())
    ensures exists n :: 0 <= n <= |parts| && fed == Concat(parts[..n])
    ensures !TooBig(e.maxObjectSize, |Concat(parts)|) ==> fed == Concat(parts)
    ensures old(e.disk.files.Keys) * e.index.chunkLocations.Keys <= e.disk.files.Keys
    ensures e.disk.files.Keys - e.index.chunkLocations.Keys <= old(e.disk.files.Keys)
    ensures forall c :: c in FullChunks(fed, e.chunkSize) && e.h.sha(c) !in e.index.chunkLocations ==>
              e.h.sha(c) !in e.disk.files
    ensures old(e.held) <= e.held && old(e.disk.history) <= e.disk.history
    ensures e.index.durability == Sync ==> SafeSince(e.disk.history, |old(e.disk.history)|, {e.index.manifests})
  {
    hide StorageEngine.Valid, Concat, AllUsed, FullChunks, Leftover, Split, Grew, SafeSince, ValidKey, TooBig, Ids;
    ghost var before := e.Stocked();
    StartPositive(e);
    var begun := e.BeginStore(key, contentType, metadata);
    var session := begun.value;
    GrewNothing(before, e.Synced(), e.index.manifests);
    var _, n := FeedAll(e, session, parts, before);
    fed := session.Fed();
    FlushedIds(e.h, FullChunks(fed, e.chunkSize));
    GiveUp(e, session, before);
  }

  lemma FlushedIds(h: Hashes, cs: seq<Bytes>)
    ensures forall c :: c in cs ==> h.sha(c) in Ids(h, cs)
  {
    forall c | c in cs ensures h.sha(c) in Ids(h, cs) {
      var i :| 0 <= i < |cs| && cs[i] == c;
      assert Ids(h, cs)[i] == h.sha(c);
    }
  }

  // ---- runs of uploads ----

  /** An upload that its caller finishes, or gives up. */
  datatype Job = Job(key: Key, contentType: Bytes, metadata: map<Bytes, Bytes>, parts: seq<Bytes>, now: int, keep: bool)

  /** The key map after a job that published the given manifest, if any. */
  ghost function Outcome(m: Manifests, job: Job, published: Option<Manifest>): Manifests {
    if published.Some? then m[job.key := published.value] else m
  }

  ghost predicate Publishes(max: nat, job: Job) {
    job.keep && ValidKey(job.key) && !TooBig(max, |Concat(job.parts)|)
  }

  /** The manifest a job publishes says what its caller gave. */
  ghost predicate Labelled(h: Hashes, chunkSize: nat, m: Manifest, job: Job) {
    && m.key == job.key && m.contentType == job.contentType && m.metadata == job.metadata
    && m.createdAt == m.updatedAt == job.now && m.chunkSize == chunkSize
    && m.totalSize == |Concat(job.parts)| && m.checksum == h.sha(Concat(job.parts))
  }

  /** Every disk state of job `j` reveals the key map before or after it. */
  ghost predicate SafeJob(history: seq<Snapshot>, marks: seq<nat>, maps: seq<Manifests>, j: nat)
    requires |marks| == |maps| && j + 1 < |marks|
  {
    && marks[j] <= marks[j + 1] <= |history|
    && SafeSince(history[..marks[j + 1]], marks[j], {maps[j], maps[j + 1]})
  }

  ghost predicate SafeJobs(history: seq<Snapshot>, marks: seq<nat>, maps: seq<Manifests>) {
    |marks| == |maps| && forall j: nat :: j + 1 < |marks| ==> SafeJob(history, marks, maps, j)
  }

  /** Any run of uploads, overwrites, refused and abandoned ones, with fsync at
      commits: `marks` are the points where each job was acknowledged. Frozen at
      any moment, the disk reveals the key map after all acknowledged jobs, or
      that with the job under way. */
  method RunAll(e: StorageEngine, jobs: seq<Job>)
    returns (published: seq<Option<Manifest>>, ghost maps: seq<Manifests>, ghost marks: seq<nat>)
    requires e.Valid() && forall j :: 0 <= j < |jobs| ==> AllUsed(e.h, Split(Concat(jobs[j].parts), e.chunkSize))
    modifies e`held, e.index, e.disk
    ensures e.Valid() && |published| == |jobs| && |maps| == |marks| == |jobs| + 1
    ensures maps[0] == old(e.index.manifests) && maps[|jobs|] == e.index.manifests
    ensures forall j :: 0 <= j < |jobs| ==> maps[j + 1] == Outcome(maps[j], jobs[j], published[j])
    ensures forall j :: 0 <= j < |jobs| ==> (published[j].Some? <==> Publishes(e.maxObjectSize, jobs[j]))
    ensures forall j :: 0 <= j < |jobs| && published[j].Some? ==>
              Labelled(e.h, e.chunkSize, published[j].value, jobs[j])
    ensures marks[0] == |old(e.disk.history)| && marks[|jobs|] == |e.disk.history|
    ensures e.index.durability == Sync ==> SafeJobs(e.disk.history, marks, maps)
    ensures forall j :: 0 <= j < |maps| ==> Catalogue(e.h, maps[j])
  {
    hide StorageEngine.Valid, CrashSafe, Catalogue, Sum, Concat, AllUsed, Split, SafeSince;
    hide SafeJobs, BuildManifest, ObjectsOf, Publishes, Labelled;
    NoJobs(e.disk.history, e.index.manifests);
    published, maps, marks := [], [e.index.manifests], [|e.disk.history|];
    CatalogueNow(e);
    for n := 0 to |jobs|
      invariant e.Valid() && |published| == n && |maps| == |marks| == n + 1
      invariant maps[0] == old(e.index.manifests) && maps[n] == e.index.manifests
      invariant forall j :: 0 <= j < n ==> maps[j + 1] == Outcome(maps[j], jobs[j], published[j])
      invariant forall j :: 0 <= j < n ==> (published[j].Some? <==> Publishes(e.maxObjectSize, jobs[j]))
      invariant forall j :: 0 <= j < n && published[j].Some? ==>
                  Labelled(e.h, e.chunkSize, published[j].value, jobs[j])
      invariant marks[0] == |old(e.disk.history)| && marks[n] == |e.disk.history|
      invariant e.index.durability == Sync ==> SafeJobs(e.disk.history, marks, maps)
      invariant forall j :: 0 <= j < |maps| ==> Catalogue(e.h, maps[j])
    {
      ghost var before := e.disk.history;
      var m := RunJob(e, jobs[n]);
      if e.index.durability == Sync {
        OneMoreJob(before, e.disk.history, marks, maps, e.index.manifests);
      }
      CatalogueNow(e);
      published := published + [m];
      maps := maps + [e.index.manifests];
      marks := marks + [|e.disk.history|];
    }
  }

  method RunJob(e: StorageEngine, job: Job) returns (published: Option<Manifest>)
    requires e.Valid() && AllUsed(e.h, Split(Concat(job.parts), e.chunkSize))
    modifies e`held, e.index, e.disk
    ensures e.Valid() && e.index.manifests == Outcome(old(e.index.manifests), job, published)
    ensures published.Some? <==> Publishes(e.maxObjectSize, job)
    ensures published.Some? ==> Labelled(e.h, e.chunkSize, published.value, job)
    ensures old(e.disk.history) <= e.disk.history
    ensures e.index.durability == Sync ==>
              SafeSince(e.disk.history, |old(e.disk.history)|, {old(e.index.manifests), e.index.manifests})
  {
    hide StorageEngine.Valid, CrashSafe, Sum, Concat, AllUsed, Split, SafeSince, ValidKey, TooBig;
    hide BuildManifest, ObjectsOf;
    NothingSince(e.disk.history, {e.index.manifests});
    assert {e.index.manifests, e.index.manifests} == {e.index.manifests};
    published := None;
    if job.keep {
      var r := Run(e, job.key, job.contentType, job.metadata, job.parts, job.now);
      if r.Ok? { published := Some(r.value); }
    } else if ValidKey(job.key) {
      ghost var _ := Abandon(e, job.key, job.contentType, job.metadata, job.parts);
    }
  }

  lemma CatalogueNow(e: StorageEngine)
    requires e.Valid()
    ensures Catalogue(e.h, e.index.manifests)
  {
  }

  lemma NoJobs(history: seq<Snapshot>, m: Manifests)
    ensures SafeJobs(history, [|history|], [m])
  {
  }

  /** Later disk states do not change what the states of job `j` reveal. */
  lemma SafeJobStays(before: seq<Snapshot>, history: seq<Snapshot>, marks: seq<nat>, maps: seq<Manifests>,
                     mark: nat, m: Manifests, j: nat)
    requires |marks| == |maps| && j + 1 < |marks| && before <= history && SafeJob(before, marks, maps, j)
    ensures SafeJob(history, marks + [mark], maps + [m], j)
  {
    hide SafeSince;
    assert history[..marks[j + 1]] == before[..marks[j + 1]];
  }

  lemma NewJobSafe(before: seq<Snapshot>, history: seq<Snapshot>, marks: seq<nat>, maps: seq<Manifests>, m: Manifests)
    requires |marks| == |maps| && marks != [] && marks[|marks| - 1] == |before| && before <= history
    requires SafeSince(history, |before|, {maps[|maps| - 1], m})
    ensures SafeJob(history, marks + [|history|], maps + [m], |marks| - 1)
  {
    hide SafeSince;
    assert history[..|history|] == history;
  }

  lemma OneMoreJob(before: seq<Snapshot>, history: seq<Snapshot>, marks: seq<nat>, maps: seq<Manifests>, m: Manifests)
    requires before <= history && SafeJobs(before, marks, maps) && marks != [] && marks[|marks| - 1] == |before|
    requires SafeSince(history, |before|, {maps[|maps| - 1], m})
    ensures SafeJobs(history, marks + [|history|], maps + [m])
  {
    hide SafeSince, SafeJob;
    forall j: nat | j + 1 < |marks| + 1 ensures SafeJob(history, marks + [|history|], maps + [m], j) {
      if j + 1 < |marks| {
        SafeJobStays(before, history, marks, maps, |history|, m, j);
      } else {
        NewJobSafe(before, history, marks, maps, m);
      }
    }
  }

  /** Any moment of a safe job is one from which `Recover` leads back to one of
      its two key maps. */
  lemma AnyMoment(e: StorageEngine, marks: seq<nat>, maps: seq<Manifests>, j: nat, i: nat)
    requires e.Valid() && |marks| == |maps| && j + 1 < |marks| && SafeJob(e.disk.history, marks, maps, j)
    requires marks[j] <= i < marks[j + 1]
    ensures i < |e.disk.history|
    ensures CrashSafe(e.disk.history[i], {maps[j], maps[j + 1]}) && ContentAddressed(e.h, e.disk.history[i].files)
  {
    hide CrashSafe, Catalogue, Balanced, Backed, ContentAddressed, Good, Render, Replay;
    assert e.disk.history[..marks[j + 1]][i] == e.disk.history[i];
  }

  lemma StartPositive(e: StorageEngine)
    requires e.Valid()
    ensures Positive(e.index.chunkLocations) && e.chunkSize > 0
  {
  }

  /** Abort after a refused write. */
  method GiveUp(e: StorageEngine, session: StoreSession, ghost before: Stock)
    requires e.Valid() && session.engine == e && session.Valid() && Positive(before.locations)
    requires Grew(before, e.Stocked(), session.chunks, e.Synced(), e.index.manifests)
    modifies session`referenced, session`open
    modifies e`held, e.index`chunkLocations, e.index`logEntries, e.index`appended, e.disk
    ensures e.Valid() && e.held == old(e.held)[session.slot := multiset{}]
    ensures e.index.chunkLocations == before.locations
    ensures before.files * before.locations.Keys <= e.disk.files.Keys
    ensures e.disk.files.Keys - before.locations.Keys <= before.files
    ensures forall id :: id in old(session.chunks) && id !in before.locations ==> id !in e.disk.files
    ensures before.history <= e.disk.history
    ensures e.Synced() ==> SafeSince(e.disk.history, |before.history|, {e.index.manifests})
  {
    hide StorageEngine.Valid, Grew, DropRefs, Reclaim, SafeSince;
    ghost var grown, m, synced := e.Stocked(), e.index.manifests, e.Synced();
    GrewMeans(before, grown, session.chunks, synced, m);
    session.Abort();
    Undone(before, grown, session.chunks, synced, m, e.index.chunkLocations, e.disk.files.Keys);
    if synced { LongerSince(grown.history, e.disk.history, |before.history|, {m}, {m}, {m}); }
  }

  /** Taking references and giving them back restores the chunk table; the files
      of chunks only the session used are gone. */
  lemma Undone(a: Stock, b: Stock, ids: seq<ChunkId>, synced: bool, m: Manifests, l: Locations, files: set<ChunkId>)
    requires Positive(a.locations) && Grew(a, b, ids, synced, m)
    requires l == DropRefs(b.locations, ids) && files == Reclaim(b.files, ids, l)
    ensures l == a.locations
    ensures a.files * l.Keys <= files && files - l.Keys <= a.files
    ensures forall id :: id in ids && id !in l ==> id !in files
  {
    hide AddRefs, DropRefs, SafeSince;
    DropUndoesAdd(a.locations, ids, ids, PathOf());
  }

  lemma PartUsed(h: Hashes, parts: seq<Bytes>, i: nat, size: nat)
    requires size > 0 && i < |parts| && AllUsed(h, Split(Concat(parts), size))
    ensures AllUsed(h, FullChunks(Concat(parts[..i]) + parts[i], size))
    ensures Concat(parts[..i + 1]) == Concat(parts[..i]) + parts[i]
  {
    hide FullChunks, Leftover, Concat;
    var front, rest := parts[..i], parts[i + 1..];
    ConcatSnoc(front, parts[i]);
    assert parts[..i + 1] == front + [parts[i]];
    assert parts == parts[..i + 1] + rest;
    ConcatAppend(parts[..i + 1], rest);
    FedPrefix(Concat(front) + parts[i], Concat(rest), size);
    TailUsed(h, Concat(parts), size);
    var some, full := FullChunks(Concat(front) + parts[i], size), FullChunks(Concat(parts), size);
    assert some <= full <= Split(Concat(parts), size);
    forall j | 0 <= j < |some| ensures h.used(some[j]) {
      assert some[j] == full[j] == Split(Concat(parts), size)[j];
    }
  }

  lemma TooBigStays(max: nat, parts: seq<Bytes>, i: nat)
    requires i < |parts| && TooBig(max, |Concat(parts[..i])| + |parts[i]|)
    ensures TooBig(max, |Concat(parts)|)
  {
    hide Concat;
    ConcatSnoc(parts[..i], parts[i]);
    assert parts[..i + 1] == parts[..i] + [parts[i]];
    assert parts == parts[..i + 1] + parts[i + 1..];
    ConcatAppend(parts[..i + 1], parts[i + 1..]);
  }

  lemma FinishedHolds(held: seq<multiset<ChunkId>>)
    ensures Sum(held + [multiset{}]) == Sum(held)
  {
    SumSnoc(held, multiset{});
  }

  /** The engine a reopening finds after a power loss froze the disk in state
      `d` and kept the first `k` bytes of the log: the key map is one of `maps`
      and everything in it can be served. It is fit for further writes exactly
      when the cut did not take just the newline of a complete entry. */
  method Recover(h: Hashes, codec: Codec<LogEntry>, ghost d: Snapshot, ghost maps: set<Manifests>,
                 log: Bytes, files: map<ChunkId, Bytes>, ghost k: nat,
                 chunkSize: nat, maxObjectSize: nat, verifyOnRead: bool, durability: Durability)
    returns (r: Result<StorageEngine>)
    requires h.CollisionFree() && 0 < chunkSize && HEADER_SIZE + chunkSize < U64
    requires Good(codec) && CrashSafe(d, maps) && ContentAddressed(h, d.files)
    requires forall m :: m in maps ==> Catalogue(h, m)
    requires |Render(codec, d.entries[..d.synced])| <= k <= |Render(codec, d.entries)|
    requires log == Render(codec, d.entries)[..k] && files == d.files
    ensures Tail(codec, d.entries, k) == [] || codec.utf8(Tail(codec, d.entries, k)) ==> r.Ok?
    ensures r.Ok? ==>
      && fresh(r.value) && fresh(r.value.disk) && fresh(r.value.index) && r.value.h == h
      && r.value.index.manifests in maps && Present(r.value.index.manifests, r.value.disk.files.Keys)
      && (r.value.Valid() <==> !LostNewline(codec, d.entries, k))
  {
    hide Parse, Render, Tail, WholeLines, Replay, Covers, Present, Catalogue, ContentAddressed, Good, CrashSafe;
    hide Balanced, Backed, Excess, WellKeyed, LostNewline, Complete;
    CrashThenReplay(codec, d, k, maps);
    TornLog(codec, d.entries, k);
    AfterCut(codec, d.entries, k);
    var disk := new Disk.AfterCrash(codec, d, log, files, k);
    KeptPrefix(d, codec, k, maps);
    if durability == Sync { SyncedSafe(disk.Now(), {Replay(disk.entries).manifests}); }
    r := StorageEngine.Open(h, disk, chunkSize, maxObjectSize, verifyOnRead, durability);
  }

  lemma KeptPrefix(d: Snapshot, codec: Codec<LogEntry>, k: nat, maps: set<Manifests>)
    requires Good(codec) && CrashSafe(d, maps)
    requires |Render(codec, d.entries[..d.synced])| <= k <= |Render(codec, d.entries)|
    ensures Reveals(d.entries[..Complete(codec, d.entries, k)], d.files.Keys, maps)
  {
    hide Reveals, Render, Tail, WholeLines;
    CleanCut(codec, d.entries, d.synced, k);
  }

  /** The recovered log is well formed unless its last newline is missing. */
  lemma AfterCut(codec: Codec<LogEntry>, es: seq<LogEntry>, k: nat)
    requires Good(codec) && k <= |Render(codec, es)|
    ensures var kept := Render(codec, es[..WholeLines(codec, es, k)]) +
                        (if LostNewline(codec, es, k) then Tail(codec, es, k) else []);
            kept == Render(codec, es[..Complete(codec, es, k)]) <==> !LostNewline(codec, es, k)
  {
    hide Tail, WholeLines;
    var n := WholeLines(codec, es, k);
    if LostNewline(codec, es, k) {
      assert es[..n + 1] == es[..n] + [es[n]];
      RenderSnoc(codec, es[..n], es[n]);
    } else {
      assert Render(codec, es[..n]) + [] == Render(codec, es[..n]);
    }
  }
}
