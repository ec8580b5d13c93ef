/** Whole runs of the engine against its specification: a map from keys to
    bytes. */
module System {
  import opened Bytes
  import opened Types
  import opened Chunking
  import opened ChunkFormat
  import opened Ranges
  import opened IndexModel
  import opened Refs
  import opened Recovery
  import opened Accounts
  import opened LogText
  import opened Disk
  import opened Index
  import opened BlobStore
  import opened Engine
  import opened Trace
  import Upload

  /** Client requests, run one at a time. An upload is one request (`Store`, its
      `parts` the writes of a worker) or a session of its own, open while other
      requests are served. `recent` are the chunk files younger than the grace
      period. */
  datatype Op =
    | Store(key: Key, contentType: Bytes, metadata: map<Bytes, Bytes>, parts: seq<Bytes>, now: int)
    | Begin(key: Key, contentType: Bytes, metadata: map<Bytes, Bytes>)
    | Write(sid: nat, data: Bytes)
    | Finish(sid: nat, now: int)
    | Abort(sid: nat)
    | Drop(sid: nat)
    | Describe(key: Key)
    | Read(key: Key)
    | ReadRange(key: Key, offset: nat, length: nat)
    | Stream(key: Key, offset: nat, length: nat)
    | List(prefix: Bytes, limit: nat, cursor: Bytes)
    | Delete(key: Key)
    | Rename(from: Key, to: Key, now: int)
    | Gc(recent: set<ChunkId>)
    | Compact
    | Reopen(chunkSize: nat, maxObjectSize: nat, verifyOnRead: bool)

  /** `NoSession` answers a session number that no caller can hold. */
  datatype Reply =
    | Done
    | Opened(sid: nat)
    | NoSession
    | Described(about: Label, size: nat)
    | Data(bytes: Bytes)
    | Found(yes: bool)
    | Page(keys: seq<Key>, next: Option<Key>)
    | Failed(error: Error)

  datatype Pending = Pending(key: Key, contentType: Bytes, metadata: map<Bytes, Bytes>, data: Bytes)

  /** The specification's state: the objects with their labels, the configuration
      in force, and for each session begun what it has been given, as long as it
      is open. */
  datatype Plain = Plain(objects: map<Key, Bytes>, labels: map<Key, Label>, chunkSize: nat, maxObjectSize: nat,
                         pending: seq<Option<Pending>>)
  {
    predicate Open(sid: nat) {
      sid < |pending| && pending[sid].Some?
    }

    function Close(sid: nat): Plain
      requires Open(sid)
    {
      this.(pending := pending[sid := None])
    }

    /** Store an object under a fresh label. */
    function Put(key: Key, data: Bytes, contentType: Bytes, metadata: map<Bytes, Bytes>, now: int): Plain {
      this.(objects := objects[key := data], labels := labels[key := Label(contentType, metadata, now, now, chunkSize)])
    }
  }

  ghost function Expected(p: Plain, op: Op): (Plain, Reply) {
    match op
    case Store(key, contentType, metadata, parts, now) =>
      if !ValidKey(key) then (p, Failed(InvalidKey))
      else if Upload.TooBig(p.maxObjectSize, |Concat(parts)|) then (p, Failed(TooLarge))
      else (p.Put(key, Concat(parts), contentType, metadata, now), Done)
    case Begin(key, contentType, metadata) =>
      if !ValidKey(key) then (p, Failed(InvalidKey))
      else (p.(pending := p.pending + [Some(Pending(key, contentType, metadata, []))]), Opened(|p.pending|))
    case Write(sid, data) =>
      if !p.Open(sid) then (p, NoSession)
      else
        var q := p.pending[sid].value;
        if Upload.TooBig(p.maxObjectSize, |q.data| + |data|) then (p, Failed(TooLarge))
        else (p.(pending := p.pending[sid := Some(q.(data := q.data + data))]), Done)
    case Finish(sid, now) =>
      if !p.Open(sid) then (p, NoSession)
      else
        var q := p.pending[sid].value;
        (p.Close(sid).Put(q.key, q.data, q.contentType, q.metadata, now), Done)
    case Abort(sid) => if !p.Open(sid) then (p, NoSession) else (p.Close(sid), Done)
    case Drop(sid) => if !p.Open(sid) then (p, NoSession) else (p.Close(sid), Done)
    case Describe(key) =>
      (p, if key in p.objects && key in p.labels then Described(p.labels[key], |p.objects[key]|) else Failed(NotFound))
    case Read(key) =>
      (p, if key in p.objects then Data(p.objects[key]) else Failed(NotFound))
    case ReadRange(key, offset, length) =>
      (p, if key in p.objects then Data(Slice(p.objects[key], offset, length)) else Failed(NotFound))
    case Stream(key, offset, length) =>
      (p, if key in p.objects then Data(Slice(p.objects[key], offset, length)) else Failed(NotFound))
    case List(prefix, limit, cursor) =>
      var keys := PageKeys(p.objects.Keys, prefix, limit, cursor);
      (p, Page(keys, NextCursor(keys, limit)))
    case Delete(key) => (p.(objects := p.objects - {key}, labels := p.labels - {key}), Found(key in p.objects))
    case Rename(from, to, now) =>
      if !ValidKey(to) || from == to then (p, Failed(InvalidKey))
      else if from !in p.objects || from !in p.labels then (p, Failed(NotFound))
      else if to in p.objects then (p, Failed(AlreadyExists))
      else (p.(objects := p.objects[to := p.objects[from]] - {from},
               labels := p.labels[to := p.labels[from].(updatedAt := now)] - {from}), Done)
    case Gc(_) => (p, Done)
    case Compact => (p, Done)
    case Reopen(chunkSize, maxObjectSize, _) => (Plain(p.objects, p.labels, chunkSize, maxObjectSize, []), Done)
  }

  ghost function StateAfter(p: Plain, ops: seq<Op>): Plain {
    if ops == [] then p else Expected(StateAfter(p, ops[..|ops| - 1]), ops[|ops| - 1]).0
  }

  ghost function Replies(p: Plain, ops: seq<Op>): seq<Reply> {
    if ops == [] then []
    else Replies(p, ops[..|ops| - 1]) + [Expected(StateAfter(p, ops[..|ops| - 1]), ops[|ops| - 1]).1]
  }

  lemma OneMore(p: Plain, ops: seq<Op>, n: nat)
    requires n < |ops|
    ensures StateAfter(p, ops[..n + 1]) == Expected(StateAfter(p, ops[..n]), ops[n]).0
    ensures Replies(p, ops[..n + 1]) == Replies(p, ops[..n]) + [Expected(StateAfter(p, ops[..n]), ops[n]).1]
  {
    assert ops[..n + 1][..n] == ops[..n];
  }

  ghost predicate ChunksUsed(h: Hashes, data: Bytes) {
    forall size: nat :: size > 0 ==> AllUsed(h, Split(data, size))
  }

  /** What the hypotheses on hashing and the configuration ask of a request. */
  ghost predicate Admissible(h: Hashes, p: Plain, op: Op) {
    match op
    case Store(_, _, _, parts, _) => ChunksUsed(h, Concat(parts))
    case Write(sid, data) => p.Open(sid) ==> ChunksUsed(h, p.pending[sid].value.data + data)
    case Finish(sid, _) => p.Open(sid) ==> ChunksUsed(h, p.pending[sid].value.data)
    case ReadRange(_, offset, length) => offset + length < U64
    case Stream(_, offset, length) => offset + length < U64
    case Reopen(chunkSize, _, _) => 0 < chunkSize && HEADER_SIZE + chunkSize < U64
    case _ => true
  }

  // ---- the refinement relation ----

  ghost function Live(ss: seq<Option<StoreSession>>): set<StoreSession> {
    set i | 0 <= i < |ss| && ss[i].Some? :: ss[i].value
  }

  /** The open sessions are those of the specification, each with references of
      its own. */
  ghost predicate Sessions(e: StorageEngine, ss: seq<Option<StoreSession>>, pending: seq<Option<Pending>>)
    reads e`held, Live(ss)
  {
    && |ss| == |pending|
    && (forall i :: 0 <= i < |ss| ==> (ss[i].Some? <==> pending[i].Some?))
    && (forall i :: 0 <= i < |ss| && ss[i].Some? ==>
          Matches(e, ss[i].value, pending[i].value) && Holds(e.held, ss[i].value.slot, ss[i].value.chunks))
    && (forall i, j :: 0 <= i < j < |ss| && ss[i].Some? && ss[j].Some? ==>
          ss[i].value != ss[j].value && ss[i].value.slot != ss[j].value.slot)
  }

  ghost predicate Matches(e: StorageEngine, s: StoreSession, q: Pending)
    reads s
  {
    s.engine == e && s.open && s.referenced == s.chunks && s.Ready() && s.Fed() == q.data
    && s.key == q.key && s.contentType == q.contentType && s.metadata == q.metadata
  }

  ghost predicate Holds(held: seq<multiset<ChunkId>>, slot: nat, chunks: seq<ChunkId>) {
    slot < |held| && held[slot] == multiset(chunks)
  }

  /** An engine and its open sessions stand for a state of the specification. */
  ghost predicate Represents(e: StorageEngine, ss: seq<Option<StoreSession>>, p: Plain)
    reads e, e.index, e.disk, Live(ss)
  {
    && e.Valid() && e.Objects() == p.objects && e.Labels() == p.labels
    && e.chunkSize == p.chunkSize && e.maxObjectSize == p.maxObjectSize
    && Sessions(e, ss, p.pending)
  }

  ghost function Slots(ss: seq<Option<StoreSession>>): set<nat> {
    set i | 0 <= i < |ss| && ss[i].Some? :: ss[i].value.slot
  }

  /** A request whose disk states reveal the key map from before or after it:
      all but a delete or a rename that goes through. */
  predicate Atomic(op: Op, reply: Reply) {
    !(op.Delete? && reply == Found(true)) && !(op.Rename? && reply == Done)
  }

  /** Session `sid` is open and the request ends it without running any code. */
  predicate Strands(p: Plain, op: Op, sid: nat) {
    p.Open(sid) && (op == Drop(sid) || op.Reopen?)
  }

  /** The session has flushed the chunk `c`. */
  predicate Flushed(p: Plain, sid: nat, c: Bytes) {
    p.Open(sid) && p.chunkSize > 0 && c in FullChunks(p.pending[sid].value.data, p.chunkSize)
  }

  // ---- requests ----

  lemma PositiveChunkSize(e: StorageEngine)
    requires e.Valid()
    ensures e.chunkSize > 0
  {
  }

  predicate Looks(op: Op) {
    op.Describe? || op.Read? || op.ReadRange? || op.Stream? || op.List?
  }

  predicate NamesSession(op: Op) {
    op.Write? || op.Finish? || op.Abort? || op.Drop?
  }

  /** Requests that only look. */
  method Query(e: StorageEngine, ghost p: Plain, op: Op) returns (reply: Reply)
    requires e.Valid() && p.objects == e.Objects() && p.labels == e.Labels() && Looks(op)
    requires op.ReadRange? || op.Stream? ==> op.offset + op.length < U64
    ensures Expected(p, op) == (p, reply)
  {
    hide Recorded, Balanced, Backed, CrashSafe, ContentAddressed, Good, Render, Replay, Sum;
    hide Concat, Split, Slice, ObjectsOf, PageKeys, ValidKey, WellFormed;
    match op {
      case Describe(key) =>
        reply := DescribeOne(e, key);
      case Read(key) =>
        var r := e.Read(key);
        reply := if r.Ok? then Data(r.value) else Failed(r.error);
      case ReadRange(key, offset, length) =>
        var r := e.ReadRange(key, offset, length);
        reply := if r.Ok? then Data(r.value) else Failed(r.error);
      case Stream(key, offset, length) =>
        var r := e.Stream(key, offset, length);
        reply := if r.Ok? then Data(Concat(r.value)) else Failed(r.error);
      case List(prefix, limit, cursor) =>
        SameKeys(e);
        var results, next := e.List(prefix, limit, cursor);
        reply := Page(KeysOf(results), next);
    }
  }

  method DescribeOne(e: StorageEngine, key: Key) returns (reply: Reply)
    requires e.Valid()
    ensures reply == if key in e.Objects() && key in e.Labels() then Described(e.Labels()[key], |e.Objects()[key]|)
                     else Failed(NotFound)
  {
    hide StorageEngine.Valid, OnDisk, Content;
    var found := e.GetManifest(key);
    if found == None { return Failed(NotFound); }
    var m := found.value;
    e.ObjectOnDisk(key);
    reply := Described(Label(m.contentType, m.metadata, m.createdAt, m.updatedAt, m.chunkSize), m.totalSize);
  }

  lemma SameKeys(e: StorageEngine)
    ensures e.Objects().Keys == e.Labels().Keys == e.index.manifests.Keys
  {
    hide Content;
  }

  /** Requests that change objects, or only what stores them. */
  method Change(e: StorageEngine, ghost p: Plain, op: Op) returns (reply: Reply)
    requires e.Valid() && p.objects == e.Objects() && p.labels == e.Labels()
    requires p.maxObjectSize == e.maxObjectSize && p.chunkSize == e.chunkSize
    requires !Looks(op) && !NamesSession(op) && !op.Begin? && !op.Reopen?
    requires op.Store? ==> ChunksUsed(e.h, Concat(op.parts))
    modifies e`held, e.index, e.disk
    ensures e.Valid() && old(e.held) <= e.held
    ensures Expected(p, op) == (p.(objects := e.Objects(), labels := e.Labels()), reply)
    ensures Progress(old(At(e)), At(e), Atomic(op, reply))
  {
    hide ChunksUsed, StorageEngine.Valid, ObjectsOf, Expected, Progress;
    if op.Store? {
      reply := StoreAll(e, p, op);
    } else if op.Delete? || op.Rename? {
      reply := DeleteOrRename(e, p, op);
    } else {
      Maintain(e, op);
      reply := Done;
      Upkeep(p, op);
    }
  }

  method Maintain(e: StorageEngine, op: Op)
    requires e.Valid() && (op.Gc? || op.Compact?)
    modifies e.index`logEntries, e.index`rewritten, e.disk
    ensures e.Valid() && e.Objects() == old(e.Objects()) && e.Labels() == old(e.Labels())
    ensures Progress(old(At(e)), At(e), true)
  {
    hide StorageEngine.Valid, SafeSince, ObjectsOf, LabelsOf, Progress;
    ghost var before := At(e);
    if op.Gc? { Collect(e, op.recent); } else { CompactLog(e); }
    SameMap(before, At(e));
  }

  method Collect(e: StorageEngine, recent: set<ChunkId>)
    requires e.Valid()
    modifies e.disk`files, e.disk`history
    ensures e.Valid() && old(e.disk.files.Keys) * e.index.chunkLocations.Keys <= e.disk.files.Keys
    ensures e.disk.files.Keys <= e.index.chunkLocations.Keys + recent
    ensures old(e.disk.history) <= e.disk.history
    ensures e.index.durability == Sync ==> SafeSince(e.disk.history, |old(e.disk.history)|, {e.index.manifests})
  {
    hide StorageEngine.Valid, SafeSince;
    var _ := e.Gc(recent);
  }

  lemma Upkeep(p: Plain, op: Op)
    requires op.Gc? || op.Compact?
    ensures Expected(p, op) == (p, Done)
  {
  }

  method StoreAll(e: StorageEngine, ghost p: Plain, op: Op) returns (reply: Reply)
    requires e.Valid() && p.objects == e.Objects() && p.labels == e.Labels()
    requires p.maxObjectSize == e.maxObjectSize && p.chunkSize == e.chunkSize
    requires op.Store? && ChunksUsed(e.h, Concat(op.parts))
    modifies e`held, e.index, e.disk
    ensures e.Valid() && old(e.held) <= e.held
    ensures Expected(p, op) == (p.(objects := e.Objects(), labels := e.Labels()), reply)
    ensures Progress(old(At(e)), At(e), Atomic(op, reply))
  {
    hide StorageEngine.Valid, ObjectsOf, LabelsOf, Concat, AllUsed, Split, SafeSince, ValidKey, Sum;
    hide Upload.TooBig, BuildManifest;
    PositiveChunkSize(e);
    ghost var m := e.index.manifests;
    var r := Upload.Run(e, op.key, op.contentType, op.metadata, op.parts, op.now);
    if r.Ok? { LabelsPut(m, op.key, r.value); }
    reply := if r.Ok? then Done else Failed(r.error);
  }

  method DeleteOrRename(e: StorageEngine, ghost p: Plain, op: Op) returns (reply: Reply)
    requires e.Valid() && p.objects == e.Objects() && p.labels == e.Labels() && (op.Delete? || op.Rename?)
    modifies e`held, e.index, e.disk
    ensures e.Valid() && e.held == old(e.held)
    ensures Expected(p, op) == (p.(objects := e.Objects(), labels := e.Labels()), reply)
    ensures Progress(old(At(e)), At(e), Atomic(op, reply))
  {
    hide StorageEngine.Valid, ObjectsOf, LabelsOf, ValidKey, DropRefs, Reclaim, SafeSince, Redundant;
    ghost var before, m, files := At(e), e.index.manifests, e.disk.files.Keys;
    SameKeys(e);
    NothingSince(e.disk.history, {e.index.manifests, e.index.manifests});
    if op.Delete? {
      LabelsLess(m, op.key);
      var deleted := e.Delete(op.key);
      reply := Found(deleted);
      if deleted {
        ReclaimKeeps(files, m[op.key].chunks, e.index.chunkLocations);
      } else {
        assert e.index.manifests == m;
      }
    } else {
      var r := e.Rename(op.from, op.to, op.now);
      reply := if r.Ok? then Done else Failed(r.error);
      if r.Ok? { LabelsMove(m, op.from, op.to, r.value); }
    }
  }

  lemma LabelsMove(m: Manifests, from: Key, to: Key, x: Manifest)
    requires from in m
    ensures LabelsOf(m[to := x] - {from}) == LabelsOf(m)[to := LabelOf(x)] - {from}
    ensures from in LabelsOf(m) && LabelsOf(m)[from] == LabelOf(m[from])
  {
    LabelsPut(m, to, x);
    LabelsLess(m[to := x], from);
  }

  method CompactLog(e: StorageEngine)
    requires e.Valid()
    modifies e.index`logEntries, e.index`rewritten, e.disk
    ensures e.Valid() && e.disk.files == old(e.disk.files)
    ensures old(e.disk.history) <= e.disk.history
    ensures e.index.durability == Sync ==> SafeSince(e.disk.history, |old(e.disk.history)|, {e.index.manifests})
  {
    hide Recorded, Balanced, Backed, CrashSafe, Catalogue, ContentAddressed, Good, Render, Replay, WellKeyed;
    ghost var history := e.disk.history;
    e.index.Compact();
    RecordedGrows(e.h, history, e.disk.history);
    e.ProtectedNow();
    if e.index.durability == Sync {
      TwoMore(history, e.disk.Now(), e.disk.Now(), e.disk.history, {e.index.manifests});
    }
  }

  // ---- requests on a session ----

  /** What a request on sessions does besides its meaning: no key map but the two
      around it can be revealed, and no session but its own loses a reference. */
  ghost predicate Beside(a: Moment, ss: seq<Option<StoreSession>>, b: Moment, ss': seq<Option<StoreSession>>) {
    Progress(a, b, true) && Apart(a.held, Slots(ss), b.held, Slots(ss'))
  }

  method BeginOne(e: StorageEngine, ss: seq<Option<StoreSession>>, ghost p: Plain,
                  key: Key, contentType: Bytes, metadata: map<Bytes, Bytes>)
    returns (ss': seq<Option<StoreSession>>, reply: Reply)
    requires Represents(e, ss, p)
    modifies e`held
    ensures forall s <- Live(ss') :: s in Live(ss) || fresh(s)
    ensures var (p', expected) := Expected(p, Begin(key, contentType, metadata));
            Represents(e, ss', p') && reply == expected
    ensures Beside(old(At(e)), ss, At(e), ss')
  {
    hide StorageEngine.Valid, ObjectsOf, Matches, ValidKey, SafeSince, Progress;
    ghost var before := At(e);
    var r := e.BeginStore(key, contentType, metadata);
    NothingSince(e.disk.history, {e.index.manifests});
    SameMap(before, At(e));
    if r.Err? { return ss, Failed(r.error); }
    ss' := ss + [Some(r.value)];
    MatchesNow(e, r.value, Pending(key, contentType, metadata, []));
    reply := Opened(|ss|);
  }

  lemma OpenSession(e: StorageEngine, ss: seq<Option<StoreSession>>, p: Plain, sid: nat)
    requires Represents(e, ss, p) && p.Open(sid)
    ensures sid < |ss| && ss[sid].Some? && ss[sid].value in Live(ss)
    ensures var s, q := ss[sid].value, p.pending[sid].value;
      && s.engine == e && s.Valid() && s.Fed() == q.data && s.slot < |e.held|
      && s.key == q.key && s.contentType == q.contentType && s.metadata == q.metadata
    ensures forall c :: Flushed(p, sid, c) ==> e.h.sha(c) in e.held[ss[sid].value.slot]
    ensures forall i :: 0 <= i < |ss| && i != sid && ss[i].Some? ==> ss[i].value.slot != ss[sid].value.slot
    ensures ss[sid].value.slot in Slots(ss)
  {
    hide StorageEngine.Valid, ObjectsOf, FullChunks, Leftover;
    var s := ss[sid].value;
    Upload.FlushedIds(e.h, s.pieces);
  }

  method WriteOne(e: StorageEngine, ss: seq<Option<StoreSession>>, ghost p: Plain, sid: nat, data: Bytes)
    returns (reply: Reply)
    requires Represents(e, ss, p) && p.Open(sid) && ChunksUsed(e.h, p.pending[sid].value.data + data)
    modifies e`held, e.index, e.disk, Live(ss)
    ensures var (p', expected) := Expected(p, Write(sid, data)); Represents(e, ss, p') && reply == expected
    ensures Beside(old(At(e)), ss, At(e), ss)
  {
    hide StorageEngine.Valid, ObjectsOf, Matches, ChunksUsed, StoreSession.Ready, Progress;
    OpenSession(e, ss, p, sid);
    ghost var q := p.pending[sid].value;
    var w := FeedSession(e, ss[sid].value, q, data);
    assert p.pending[sid := Some(q)] == p.pending;
    reply := if w.Ok? then Done else Failed(w.error);
  }

  method FeedSession(e: StorageEngine, s: StoreSession, ghost q: Pending, data: Bytes) returns (w: Result<()>)
    requires e.Valid() && s.engine == e && s.Valid() && s.Fed() == q.data
    requires s.key == q.key && s.contentType == q.contentType && s.metadata == q.metadata
    requires ChunksUsed(e.h, q.data + data)
    modifies e`held, e.index, e.disk, s
    ensures e.Valid() && e.Objects() == old(e.Objects()) && e.Labels() == old(e.Labels())
    ensures w == if Upload.TooBig(e.maxObjectSize, |q.data| + |data|) then Err(TooLarge) else Ok(())
    ensures Matches(e, s, if w.Ok? then q.(data := q.data + data) else q)
    ensures s.slot < |old(e.held)| && e.held == old(e.held)[s.slot := multiset(s.chunks)]
    ensures Progress(old(At(e)), At(e), true)
  {
    hide StorageEngine.Valid, ObjectsOf, AllUsed, Split, FullChunks, Leftover, Grew, SafeSince, StoreSession.Ready;
    hide Progress;
    ghost var before, stock, known, synced := At(e), e.Stocked(), s.chunks, e.Synced();
    PositiveChunkSize(e);
    TailUsed(e.h, s.Fed() + data, e.chunkSize);
    FrontUsed(e.h, FullChunks(s.Fed() + data, e.chunkSize), Split(s.Fed() + data, e.chunkSize));
    w := s.Write(data);
    GrewMeans(stock, e.Stocked(), s.chunks[|known|..], synced, e.index.manifests);
    SameMap(before, At(e));
  }

  lemma FrontUsed(h: Hashes, front: seq<Bytes>, all: seq<Bytes>)
    requires AllUsed(h, all) && front <= all
    ensures AllUsed(h, front)
  {
  }

  lemma MatchesNow(e: StorageEngine, s: StoreSession, q: Pending)
    requires s.engine == e && s.Valid() && s.Fed() == q.data
    requires s.key == q.key && s.contentType == q.contentType && s.metadata == q.metadata
    ensures Matches(e, s, q) && Holds(e.held, s.slot, s.chunks)
  {
  }

  method FinishOne(e: StorageEngine, ss: seq<Option<StoreSession>>, ghost p: Plain, sid: nat, now: int)
    returns (ss': seq<Option<StoreSession>>)
    requires Represents(e, ss, p) && p.Open(sid) && ChunksUsed(e.h, p.pending[sid].value.data)
    modifies e`held, e.index, e.disk, Live(ss)
    ensures Live(ss') <= Live(ss) && Represents(e, ss', Expected(p, Finish(sid, now)).0)
    ensures Beside(old(At(e)), ss, At(e), ss')
  {
    hide StorageEngine.Valid, ObjectsOf, Matches, ChunksUsed, Progress, StoreSession.Ready;
    OpenSession(e, ss, p, sid);
    FinishSession(e, ss[sid].value, p.pending[sid].value, now);
    ss' := ss[sid := None];
  }

  method FinishSession(e: StorageEngine, s: StoreSession, ghost q: Pending, now: int)
    requires e.Valid() && s.engine == e && s.Valid() && s.Fed() == q.data
    requires s.key == q.key && s.contentType == q.contentType && s.metadata == q.metadata
    requires ChunksUsed(e.h, q.data)
    modifies e`held, e.index, e.disk, s
    ensures e.Valid() && e.Objects() == old(e.Objects())[q.key := q.data]
    ensures e.Labels() == old(e.Labels())[q.key := Label(q.contentType, q.metadata, now, now, e.chunkSize)]
    ensures s.slot < |old(e.held)| && e.held == old(e.held)[s.slot := multiset{}]
    ensures Progress(old(At(e)), At(e), true)
  {
    hide StorageEngine.Valid, ObjectsOf, AllUsed, Split, SafeSince, StoreSession.Ready, LabelsOf;
    PositiveChunkSize(e);
    ghost var m := e.index.manifests;
    var manifest := s.Finish(now);
    LabelsPut(m, q.key, manifest);
  }

  method AbortOne(e: StorageEngine, ss: seq<Option<StoreSession>>, ghost p: Plain, sid: nat)
    returns (ss': seq<Option<StoreSession>>)
    requires Represents(e, ss, p) && p.Open(sid)
    modifies e`held, e.index, e.disk, Live(ss)
    ensures Live(ss') <= Live(ss) && Represents(e, ss', p.Close(sid))
    ensures Beside(old(At(e)), ss, At(e), ss')
  {
    hide StorageEngine.Valid, ObjectsOf, Matches, SafeSince, DropRefs, Reclaim, Progress;
    OpenSession(e, ss, p, sid);
    var s := ss[sid].value;
    ghost var before := At(e);
    s.Abort();
    ReclaimKeeps(before.files, s.chunks, e.index.chunkLocations);
    SameMap(before, At(e));
    ss' := ss[sid := None];
  }

  /** Dropping a session runs no code: its references stay, out of reach of any
      later request. */
  method DropOne(e: StorageEngine, ss: seq<Option<StoreSession>>, ghost p: Plain, sid: nat)
    returns (ss': seq<Option<StoreSession>>)
    requires Represents(e, ss, p) && p.Open(sid)
    ensures Live(ss') <= Live(ss) && Represents(e, ss', p.Close(sid))
    ensures Beside(At(e), ss, At(e), ss')
    ensures forall c :: Flushed(p, sid, c) ==> Stuck(At(e), e.leaked, Slots(ss'), e.h.sha(c))
  {
    hide StorageEngine.Valid, ObjectsOf, Matches, Progress;
    OpenSession(e, ss, p, sid);
    NoProgress(At(e));
    ss' := ss[sid := None];
    forall c | Flushed(p, sid, c) ensures Stuck(At(e), e.leaked, Slots(ss'), e.h.sha(c)) {
      HeldOnDisk(e, ss[sid].value.slot, e.h.sha(c));
      assert Loose(e.held, Slots(ss'), ss[sid].value.slot, e.h.sha(c));
    }
  }

  /** A chunk someone besides the holder at `slot` needs: a manifest lists it,
      another holder has a reference on it, or one was left behind earlier. */
  ghost predicate OthersUse(e: StorageEngine, slot: nat, id: ChunkId)
    reads e, e.index
  {
    || (exists k :: k in e.index.manifests && id in e.index.manifests[k].chunks)
    || (exists j :: 0 <= j < |e.held| && j != slot && id in e.held[j])
    || Leak(e.leaked, id) > 0
  }

  /** Dropping a session and collecting garbage with no grace at all: every chunk
      it flushed keeps its file. So the pass leaves no file that nobody else uses
      if and only if the session had flushed no such chunk. */
  method DropThenCollect(e: StorageEngine, ss: seq<Option<StoreSession>>, ghost p: Plain, sid: nat)
    returns (ss': seq<Option<StoreSession>>)
    requires Represents(e, ss, p) && p.Open(sid) && sid < |ss| && ss[sid].Some?
    modifies e.disk`files, e.disk`history
    ensures Represents(e, ss', p.Close(sid))
    ensures var s := ss[sid].value;
      && (forall id :: id in s.chunks ==> id in e.disk.files && id in e.index.chunkLocations)
      && ((forall id :: id in e.disk.files ==> OthersUse(e, s.slot, id)) <==>
          (forall id :: id in s.chunks ==> OthersUse(e, s.slot, id)))
  {
    hide StorageEngine.Valid, ObjectsOf, Matches, OthersUse, SafeSince, Progress, Apart, Stuck, Flushed;
    var s := ss[sid].value;
    HeldHere(e, ss, p, sid);
    ss' := DropOne(e, ss, p, sid);
    Collect(e, {});
    forall id | id in s.chunks ensures id in e.disk.files && id in e.index.chunkLocations {
      HeldOnDisk(e, s.slot, id);
    }
    forall id | id in e.disk.files ensures id in s.chunks || OthersUse(e, s.slot, id) {
      UsedWhenTracked(e, s.slot, id);
    }
  }

  lemma UsedWhenTracked(e: StorageEngine, slot: nat, id: ChunkId)
    requires e.Valid() && id in e.index.chunkLocations && slot < |e.held|
    ensures id in e.held[slot] || OthersUse(e, slot, id)
  {
    hide Recorded, Backed, CrashSafe, Catalogue, ContentAddressed, Good, Render, Replay, WellKeyed, Balanced, Sum;
    TrackedIff(e.index.chunkLocations, e.index.manifests, e.held, e.leaked, id);
    SumHolds(e.held, id);
  }

  lemma HeldHere(e: StorageEngine, ss: seq<Option<StoreSession>>, p: Plain, sid: nat)
    requires Represents(e, ss, p) && sid < |ss| && ss[sid].Some?
    ensures ss[sid].value.slot < |e.held| && e.held[ss[sid].value.slot] == multiset(ss[sid].value.chunks)
  {
    hide StorageEngine.Valid, ObjectsOf, Matches;
  }

  // ---- opening ----

  /** Opening an empty data directory gives an empty store. */
  method Create(h: Hashes, codec: Codec<LogEntry>, chunkSize: nat, maxObjectSize: nat, verifyOnRead: bool,
                durability: Durability)
    returns (e: StorageEngine)
    requires h.CollisionFree() && Good(codec) && 0 < chunkSize && HEADER_SIZE + chunkSize < U64
    ensures fresh(e) && fresh(e.disk) && fresh(e.index)
    ensures Represents(e, [], Plain(map[], map[], chunkSize, maxObjectSize, []))
    ensures e.leaked == map[] && e.held == [] && e.h == h && e.index.durability == durability
  {
    var disk := new Disk.Empty(codec);
    EmptyDisk(h, codec);
    var r := StorageEngine.Open(h, disk, chunkSize, maxObjectSize, verifyOnRead, durability);
    e := r.value;
    assert e.Objects() == map[] && e.Labels() == map[];
  }

  lemma EmptyDisk(h: Hashes, codec: Codec<LogEntry>)
    ensures Parse(codec, []) == Ok(Scan([], 0, false)) && Render(codec, []) == []
    ensures Replay([]) == EMPTY && Excess(EMPTY) == map[]
    ensures Openable(h, [], map[]) && Recorded(h, []) && CrashSafe(Snapshot([], 0, map[]), {map[]})
  {
    assert Lists(map[]) == map[];
    var none: seq<LogEntry> := [];
    assert none[..0] == none;
  }

  /** Close and reopen, possibly with another configuration. What sessions held is
      left behind, reference by reference. */
  method Restart(e: StorageEngine, chunkSize: nat, maxObjectSize: nat, verifyOnRead: bool) returns (e': StorageEngine)
    requires e.Valid() && 0 < chunkSize && HEADER_SIZE + chunkSize < U64
    modifies e.disk`log, e.disk`synced
    ensures e'.Valid() && fresh(e') && fresh(e'.index) && e'.disk == e.disk && e'.h == e.h
    ensures e'.index.durability == e.index.durability
    ensures e'.chunkSize == chunkSize && e'.maxObjectSize == maxObjectSize && e'.held == []
    ensures e'.index.State() == old(e.index.State())
    ensures e'.Objects() == old(e.Objects()) && e'.Labels() == old(e.Labels())
    ensures forall id :: Leak(e'.leaked, id) == Leak(e.leaked, id) + Sum(old(e.held))[id]
  {
    hide Recorded, Backed, CrashSafe, Catalogue, ContentAddressed, Good, Render, Replay, WellKeyed;
    hide Openable, Covers, Present, Parse, Excess, Recovered, Balanced;
    e.CanReopen();
    ExcessIs(e);
    var r := StorageEngine.Open(e.h, e.disk, chunkSize, maxObjectSize, verifyOnRead, e.index.durability);
    e' := r.value;
  }

  /** What no manifest accounts for is what sessions hold or left behind. */
  lemma ExcessIs(e: StorageEngine)
    requires e.Valid()
    ensures Covers(e.index.State())
    ensures forall id :: Leak(Excess(e.index.State()), id) == Leak(e.leaked, id) + Sum(e.held)[id]
  {
    hide Backed, CrashSafe, Catalogue, ContentAddressed, Good, Render, Replay, WellKeyed, Recorded, Sum, Occurrences;
    BalancedCovers(e.index.chunkLocations, e.index.manifests, e.held, e.leaked);
    forall id ensures Leak(Excess(e.index.State()), id) == Leak(e.leaked, id) + Sum(e.held)[id] {
      assert RefCount(e.index.chunkLocations, id) ==
             Occurrences(Lists(e.index.manifests))[id] + Sum(e.held)[id] + Leak(e.leaked, id);
    }
  }

  // ---- runs ----

  /** One request does what the plain map does, and answers what it answers,
      whichever sessions are open meanwhile. A crash on the way reveals the key
      map from before or after it, unless a delete or a rename goes through; and
      references that no session can give back stay for good. */
  method Step(e: StorageEngine, ss: seq<Option<StoreSession>>, ghost p: Plain, op: Op)
    returns (e': StorageEngine, ss': seq<Option<StoreSession>>, reply: Reply)
    requires Represents(e, ss, p) && Admissible(e.h, p, op)
    modifies e`held, e.index, e.disk, Live(ss)
    ensures e'.disk == e.disk && e'.h == e.h && e'.index.durability == e.index.durability
    ensures e' == e || (fresh(e') && fresh(e'.index))
    ensures forall s <- Live(ss') :: s in Live(ss) || fresh(s)
    ensures var (p', expected) := Expected(p, op); Represents(e', ss', p') && reply == expected
    ensures Progress(old(At(e)), At(e'), Atomic(op, reply))
    ensures if op.Reopen? then forall id :: Leak(e'.leaked, id) == Leak(e.leaked, id) + Sum(old(e.held))[id]
            else e' == e && Apart(old(e.held), Slots(ss), e.held, Slots(ss'))
    ensures forall id :: Stuck(old(At(e)), e.leaked, Slots(ss), id) ==> Stuck(At(e'), e'.leaked, Slots(ss'), id)
    ensures forall sid: nat, c :: Strands(p, op, sid) && Flushed(p, sid, c) ==>
              Stuck(At(e'), e'.leaked, Slots(ss'), e.h.sha(c))
  {
    hide StorageEngine.Valid, ObjectsOf, Matches, ChunksUsed, Expected, Progress, Stuck, Apart, Slots, Flushed;
    ghost var before := At(e);
    e', ss' := e, ss;
    if op.Reopen? {
      NoSlots();
      e' := ReopenOne(e, ss, p, op);
      ss', reply := [], Done;
    } else {
      if op.Begin? {
        ss', reply := BeginOne(e, ss, p, op.key, op.contentType, op.metadata);
      } else if NamesSession(op) {
        ss', reply := SessionStep(e, ss, p, op, op.sid);
      } else if Looks(op) {
        reply := Query(e, p, op);
        NoProgress(before);
        ApartPrefix(before.held, e.held, Slots(ss));
      } else {
        reply := Change(e, p, op);
        ApartPrefix(before.held, e.held, Slots(ss));
      }
      forall id | Stuck(before, e.leaked, Slots(ss), id) ensures Stuck(At(e), e.leaked, Slots(ss'), id) {
        StuckStays(e, before, Slots(ss), Slots(ss'), Atomic(op, reply), id);
      }
    }
  }

  lemma NoSlots()
    ensures Slots([]) == {}
  {
  }

  lemma ApartPrefix(held: seq<multiset<ChunkId>>, held': seq<multiset<ChunkId>>, slots: set<nat>)
    requires held <= held'
    ensures Apart(held, slots, held', slots)
  {
  }

  /** Reopening ends every session that is open. */
  method ReopenOne(e: StorageEngine, ss: seq<Option<StoreSession>>, ghost p: Plain, op: Op) returns (e': StorageEngine)
    requires Represents(e, ss, p) && op.Reopen? && Admissible(e.h, p, op)
    modifies e.disk`log, e.disk`synced
    ensures e'.disk == e.disk && e'.h == e.h && e'.index.durability == e.index.durability
    ensures fresh(e') && fresh(e'.index)
    ensures Represents(e', [], Expected(p, op).0) && Expected(p, op).1 == Done
    ensures Progress(old(At(e)), At(e'), true)
    ensures forall id :: Leak(e'.leaked, id) == Leak(e.leaked, id) + Sum(old(e.held))[id]
    ensures forall id :: Stuck(old(At(e)), e.leaked, Slots(ss), id) ==> Stuck(At(e'), e'.leaked, {}, id)
    ensures forall sid: nat, c :: Strands(p, op, sid) && Flushed(p, sid, c) ==> Stuck(At(e'), e'.leaked, {}, e.h.sha(c))
  {
    hide StorageEngine.Valid, ObjectsOf, Matches, Progress, Stuck, Slots, Flushed, SafeSince, Sum;
    ghost var before := At(e);
    forall sid: nat, c | Strands(p, op, sid) && Flushed(p, sid, c)
      ensures Leak(e.leaked, e.h.sha(c)) + Sum(e.held)[e.h.sha(c)] > 0
              && e.h.sha(c) in before.locations && e.h.sha(c) in before.files
    {
      OpenSession(e, ss, p, sid);
      HeldOnDisk(e, ss[sid].value.slot, e.h.sha(c));
      SumHolds(e.held, e.h.sha(c));
    }
    e' := Restart(e, op.chunkSize, op.maxObjectSize, op.verifyOnRead);
    NothingSince(e.disk.history, {e'.index.manifests});
    SameMap(before, At(e'));
    forall id | Stuck(before, e.leaked, Slots(ss), id) ensures Stuck(At(e'), e'.leaked, {}, id) {
      StuckAcross(e', before, e.leaked, Slots(ss), id);
    }
    forall sid: nat, c | Strands(p, op, sid) && Flushed(p, sid, c) ensures Stuck(At(e'), e'.leaked, {}, e.h.sha(c)) {
      LeftBehind(e', e.h.sha(c));
    }
  }

  lemma LeftBehind(e: StorageEngine, id: ChunkId)
    requires Leak(e.leaked, id) > 0 && id in e.index.chunkLocations && id in e.disk.files
    ensures Stuck(At(e), e.leaked, {}, id)
  {
  }

  method SessionStep(e: StorageEngine, ss: seq<Option<StoreSession>>, ghost p: Plain, op: Op, sid: nat)
    returns (ss': seq<Option<StoreSession>>, reply: Reply)
    requires Represents(e, ss, p) && Admissible(e.h, p, op)
    requires NamesSession(op) && op.sid == sid
    modifies e`held, e.index, e.disk, Live(ss)
    ensures Live(ss') <= Live(ss)
    ensures var (p', expected) := Expected(p, op); Represents(e, ss', p') && reply == expected
    ensures Beside(old(At(e)), ss, At(e), ss')
    ensures forall c :: op.Drop? && Flushed(p, sid, c) ==> Stuck(At(e), e.leaked, Slots(ss'), e.h.sha(c))
  {
    hide StorageEngine.Valid, ObjectsOf, Matches, ChunksUsed, Sessions, Progress, Apart, Stuck, Slots;
    KnownSession(e, ss, p, sid);
    if sid >= |ss| || ss[sid].None? {
      NoProgress(At(e));
      ApartPrefix(e.held, e.held, Slots(ss));
      return ss, NoSession;
    }
    ss', reply := ss, Done;
    match op {
      case Write(_, data) => reply := WriteOne(e, ss, p, sid, data);
      case Finish(_, now) => ss' := FinishOne(e, ss, p, sid, now);
      case Abort(_) => ss' := AbortOne(e, ss, p, sid);
      case Drop(_) => ss' := DropOne(e, ss, p, sid);
    }
  }

  lemma KnownSession(e: StorageEngine, ss: seq<Option<StoreSession>>, p: Plain, sid: nat)
    requires Represents(e, ss, p)
    ensures p.Open(sid) <==> sid < |ss| && ss[sid].Some?
  {
    hide StorageEngine.Valid, ObjectsOf, Matches;
  }

  /** An engine without sessions, seen as a plain map. */
  ghost function Start(e: StorageEngine): Plain
    reads e.index
  {
    Plain(e.Objects(), e.Labels(), e.chunkSize, e.maxObjectSize, [])
  }

  lemma NoSessions(e: StorageEngine)
    requires e.Valid()
    ensures Represents(e, [], Start(e))
  {
    hide StorageEngine.Valid, ObjectsOf;
  }

  /** `marks` are the points in the disk's history where the first `n` requests
      were answered, `maps` the key maps there: they hold what the specification
      says, and an atomic request passes only disk states that reveal one of the
      two around it. */
  ghost predicate Traced(h: Hashes, start: Plain, ops: seq<Op>, replies: seq<Reply>, n: nat,
                         marks: seq<nat>, maps: seq<Manifests>, history: seq<Snapshot>, synced: bool) {
    && n <= |ops| && |replies| == n && |marks| == |maps| == n + 1 && marks[n] == |history|
    && (forall j :: 0 <= j <= n ==> Kept(h, start, ops, maps[j], j))
    && (synced ==> forall j: nat :: j < n && Atomic(ops[j], replies[j]) ==> Upload.SafeJob(history, marks, maps, j))
  }

  ghost predicate Kept(h: Hashes, start: Plain, ops: seq<Op>, m: Manifests, j: nat) {
    && j <= |ops| && Catalogue(h, m)
    && ObjectsOf(h, m) == StateAfter(start, ops[..j]).objects && LabelsOf(m) == StateAfter(start, ops[..j]).labels
  }

  lemma TraceStep(h: Hashes, start: Plain, ops: seq<Op>, replies: seq<Reply>, reply: Reply, n: nat,
                  marks: seq<nat>, maps: seq<Manifests>, a: Moment, b: Moment)
    requires n < |ops| && a.synced == b.synced
    requires Traced(h, start, ops, replies, n, marks, maps, a.history, a.synced) && maps[n] == a.manifests
    requires Progress(a, b, Atomic(ops[n], reply)) && Kept(h, start, ops, b.manifests, n + 1)
    ensures Traced(h, start, ops, replies + [reply], n + 1, marks + [|b.history|], maps + [b.manifests],
                   b.history, b.synced)
  {
    hide Kept, Upload.SafeJob, SafeSince;
    var replies', marks', maps' := replies + [reply], marks + [|b.history|], maps + [b.manifests];
    if b.synced {
      forall j: nat | j < n + 1 && Atomic(ops[j], replies'[j]) ensures Upload.SafeJob(b.history, marks', maps', j) {
        if j < n {
          Upload.SafeJobStays(a.history, b.history, marks, maps, |b.history|, b.manifests, j);
        } else {
          Upload.NewJobSafe(a.history, b.history, marks, maps, b.manifests);
        }
      }
    }
  }

  /** Request `j` ended a session that had flushed the chunk `c` and ran no code
      of it. */
  ghost predicate Stranded(start: Plain, ops: seq<Op>, j: nat, c: Bytes) {
    j < |ops| && exists sid: nat ::
      Strands(StateAfter(start, ops[..j]), ops[j], sid) && Flushed(StateAfter(start, ops[..j]), sid, c)
  }

  /** Any run of requests, with any number of uploads open in between and
      reopenings included, answers exactly as the plain map does and ends with
      its contents. With fsync at commits, its disk states reveal only the maps
      before and after the request under way, deletes and renames that go
      through excepted. And a chunk flushed by a session that was dropped, or
      open at a reopening, is tracked and on disk ever after. */
  method Execute(e0: StorageEngine, ops: seq<Op>)
    returns (e: StorageEngine, ss: seq<Option<StoreSession>>, replies: seq<Reply>,
             ghost marks: seq<nat>, ghost maps: seq<Manifests>)
    requires e0.Valid()
    requires forall i :: 0 <= i < |ops| ==> Admissible(e0.h, StateAfter(Start(e0), ops[..i]), ops[i])
    modifies e0`held, e0.index, e0.disk
    ensures e.disk == e0.disk && e.h == e0.h && e.index.durability == e0.index.durability
    ensures Represents(e, ss, StateAfter(old(Start(e0)), ops))
    ensures replies == Replies(old(Start(e0)), ops)
    ensures Traced(e.h, old(Start(e0)), ops, replies, |ops|, marks, maps, e.disk.history, e.index.durability == Sync)
    ensures marks[0] == |old(e0.disk.history)| && maps[0] == old(e0.index.manifests)
    ensures maps[|ops|] == e.index.manifests
    ensures forall j: nat, c :: Stranded(old(Start(e0)), ops, j, c) ==>
              e.h.sha(c) in e.disk.files && e.h.sha(c) in e.index.chunkLocations
  {
    hide Admissible, Expected, StateAfter, Replies, Represents, Traced, Kept, Stranded, Strands, Flushed;
    hide Stuck, Progress, Apart, Slots, Atomic, Start, Leak, Sum, StorageEngine.Valid, ObjectsOf, LabelsOf;
    ghost var start := Start(e0);
    e, ss, replies := e0, [], [];
    marks, maps := [|e0.disk.history|], [e0.index.manifests];
    NoSessions(e0);
    NothingYet(start, ops);
    TraceStart(e0, ops);
    for i := 0 to |ops|
      invariant Represents(e, ss, StateAfter(start, ops[..i])) && replies == Replies(start, ops[..i])
      invariant e.disk == e0.disk && e.h == e0.h && e.index.durability == e0.index.durability
      invariant e == e0 || (fresh(e) && fresh(e.index))
      invariant forall s <- Live(ss) :: fresh(s)
      invariant |marks| == |maps| == i + 1
      invariant Traced(e.h, start, ops, replies, i, marks, maps, e.disk.history, e.index.durability == Sync)
      invariant marks[0] == |old(e0.disk.history)| && maps[0] == old(e0.index.manifests)
      invariant maps[i] == e.index.manifests
      invariant forall j: nat, c :: j < i && Stranded(start, ops, j, c) ==>
                  Stuck(At(e), e.leaked, Slots(ss), e.h.sha(c))
    {
      OneMore(start, ops, i);
      ghost var before, known := At(e), replies;
      ghost var leaked, slots := e.leaked, Slots(ss);
      var reply;
      e, ss, reply := Step(e, ss, StateAfter(start, ops[..i]), ops[i]);
      RecordNow(e, ss, start, ops, i + 1);
      TraceStep(e.h, start, ops, known, reply, i, marks, maps, before, At(e));
      forall j: nat, c | j < i + 1 && Stranded(start, ops, j, c)
        ensures Stuck(At(e), e.leaked, Slots(ss), e.h.sha(c))
      {
        if j < i {
          assert Stuck(before, leaked, slots, e.h.sha(c));
        } else {
          JustStranded(e.h, start, ops, i, c, At(e), e.leaked, Slots(ss));
        }
      }
      replies := replies + [reply];
      marks, maps := marks + [|e.disk.history|], maps + [e.index.manifests];
    }
    assert ops[..|ops|] == ops;
    forall j: nat, c | Stranded(start, ops, j, c)
      ensures e.h.sha(c) in e.disk.files && e.h.sha(c) in e.index.chunkLocations
    {
      StrandedWhen(start, ops, j, c);
      StuckMeans(At(e), e.leaked, Slots(ss), e.h.sha(c));
    }
  }

  lemma NothingYet(p: Plain, ops: seq<Op>)
    ensures StateAfter(p, ops[..0]) == p && Replies(p, ops[..0]) == []
  {
  }

  lemma StrandedWhen(start: Plain, ops: seq<Op>, j: nat, c: Bytes)
    requires Stranded(start, ops, j, c)
    ensures j < |ops|
  {
  }

  lemma JustStranded(h: Hashes, start: Plain, ops: seq<Op>, i: nat, c: Bytes,
                     m: Moment, leaked: Leaked, slots: set<nat>)
    requires Stranded(start, ops, i, c)
    requires forall sid: nat, x ::
               (Strands(StateAfter(start, ops[..i]), ops[i], sid) && Flushed(StateAfter(start, ops[..i]), sid, x))
               ==> Stuck(m, leaked, slots, h.sha(x))
    ensures Stuck(m, leaked, slots, h.sha(c))
  {
    hide Stuck, Strands, Flushed, StateAfter;
  }

  lemma StuckMeans(m: Moment, leaked: Leaked, slots: set<nat>, id: ChunkId)
    requires Stuck(m, leaked, slots, id)
    ensures id in m.files && id in m.locations
  {
  }

  lemma TraceStart(e: StorageEngine, ops: seq<Op>)
    requires e.Valid()
    ensures Traced(e.h, Start(e), ops, [], 0, [|e.disk.history|], [e.index.manifests], e.disk.history,
                   e.index.durability == Sync)
  {
    hide StorageEngine.Valid, ObjectsOf, Catalogue;
    Upload.CatalogueNow(e);
    assert ops[..0] == [];
  }

  lemma RecordNow(e: StorageEngine, ss: seq<Option<StoreSession>>, start: Plain, ops: seq<Op>, j: nat)
    requires j <= |ops| && Represents(e, ss, StateAfter(start, ops[..j]))
    ensures Kept(e.h, start, ops, e.index.manifests, j)
  {
    hide StorageEngine.Valid, ObjectsOf, Catalogue, Sessions, StateAfter;
    Upload.CatalogueNow(e);
  }

  /** A power loss at any moment `i` of such a run, during an atomic request `j`,
      leaving the first `k` bytes of the log: the engine opened from what is left
      holds the objects that the specification has before that request or after
      it. It opens unless a character is torn, and is fit for further writes if
      and only if not just a final newline was lost. */
  method Revive(e: StorageEngine, ghost start: Plain, ghost ops: seq<Op>, ghost replies: seq<Reply>,
                ghost marks: seq<nat>, ghost maps: seq<Manifests>, ghost j: nat, ghost i: nat,
                log: Bytes, files: map<ChunkId, Bytes>, ghost k: nat,
                chunkSize: nat, maxObjectSize: nat, verifyOnRead: bool, durability: Durability)
    returns (r: Result<StorageEngine>)
    requires e.Valid() && 0 < chunkSize && HEADER_SIZE + chunkSize < U64
    requires Traced(e.h, start, ops, replies, |ops|, marks, maps, e.disk.history, true)
    requires j < |ops| && Atomic(ops[j], replies[j]) && marks[j] <= i < marks[j + 1] && i < |e.disk.history|
    requires var d := e.disk.history[i];
             && d.synced <= |d.entries| && files == d.files
             && |Render(e.disk.codec, d.entries[..d.synced])| <= k <= |Render(e.disk.codec, d.entries)|
             && log == Render(e.disk.codec, d.entries)[..k]
    ensures var tail := Tail(e.disk.codec, e.disk.history[i].entries, k);
            tail == [] || e.disk.codec.utf8(tail) ==> r.Ok?
    ensures r.Ok? ==>
      && (Shows(r.value, StateAfter(start, ops[..j])) || Shows(r.value, StateAfter(start, ops[..j + 1])))
      && (r.value.Valid() <==> !LostNewline(e.disk.codec, e.disk.history[i].entries, k))
  {
    hide StorageEngine.Valid, ObjectsOf, Catalogue, StateAfter, Atomic, CrashSafe, ContentAddressed, Good, Render, Tail;
    hide LostNewline, Upload.SafeJob, Present;
    Upload.AnyMoment(e, marks, maps, j, i);
    GoodCodec(e);
    assert Kept(e.h, start, ops, maps[j], j) && Kept(e.h, start, ops, maps[j + 1], j + 1);
    r := Upload.Recover(e.h, e.disk.codec, e.disk.history[i], {maps[j], maps[j + 1]}, log, files, k,
                        chunkSize, maxObjectSize, verifyOnRead, durability);
  }

  /** The objects and labels of a state of the specification. */
  ghost predicate Shows(e: StorageEngine, p: Plain)
    reads e.index
  {
    e.Objects() == p.objects && e.Labels() == p.labels
  }

  lemma GoodCodec(e: StorageEngine)
    requires e.Valid()
    ensures Good(e.disk.codec) && e.h.CollisionFree()
  {
  }
}
