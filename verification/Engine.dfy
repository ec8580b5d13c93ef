/** The storage engine facade and its upload sessions (engine.rs). */
module Engine {
  import opened Bytes
  import opened Types
  import opened ChunkFormat
  import opened Chunking
  import opened IndexModel
  import opened Refs
  import opened Recovery
  import opened Accounts
  import opened Ranges
  import opened LogText
  import opened Disk
  import opened Index
  import opened BlobStore
  import Hex

  const MAX_KEY_LEN := 1024

  /** A control character starts at byte `i` of a UTF-8 key. */
  predicate ControlAt(k: Key, i: nat)
    requires i < |k|
  {
    k[i] < 32 || k[i] == 127 || (k[i] == 0xC2 && i + 1 < |k| && 0x80 <= k[i + 1] < 0xA0)
  }

  /** `validate_key`. */
  predicate ValidKey(k: Key) {
    k != [] && |k| <= MAX_KEY_LEN && forall i :: 0 <= i < |k| ==> !ControlAt(k, i)
  }

  /** The manifest of a finished upload. It depends on the bytes uploaded, not on
      how they were fed to the session. */
  ghost function BuildManifest(h: Hashes, key: Key, data: Bytes, size: nat, contentType: Bytes,
                         metadata: map<Bytes, Bytes>, now: int): Manifest
    requires size > 0
  {
    Manifest(key, Ids(h, Split(data, size)), |data|, size, contentType, h.sha(data), metadata, now, now)
  }

  lemma BuiltWellFormed(h: Hashes, key: Key, data: Bytes, size: nat, contentType: Bytes,
                        metadata: map<Bytes, Bytes>, now: int)
    requires size > 0 && h.CollisionFree() && AllUsed(h, Split(data, size))
    ensures var m := BuildManifest(h, key, data, size, contentType, metadata, now);
            WellFormed(h, m) && Content(h, m.chunks) == data
  {
    SplitShape(data, size);
    OriginalsOfIds(h, Split(data, size));
  }

  ghost predicate Catalogue(h: Hashes, m: Manifests) {
    forall k :: k in m ==> ValidKey(k) && WellFormed(h, m[k])
  }

  /** The bytes stored under each key. */
  ghost function ObjectsOf(h: Hashes, m: Manifests): map<Key, Bytes> {
    map k | k in m :: Content(h, m[k].chunks)
  }

  lemma ObjectsPut(h: Hashes, m: Manifests, k: Key, x: Manifest)
    ensures ObjectsOf(h, m[k := x]) == ObjectsOf(h, m)[k := Content(h, x.chunks)]
    ensures k in m ==> k in ObjectsOf(h, m) && ObjectsOf(h, m)[k] == Content(h, m[k].chunks)
  {
    hide Content;
  }

  lemma ObjectsLess(h: Hashes, m: Manifests, k: Key)
    ensures ObjectsOf(h, m - {k}) == ObjectsOf(h, m) - {k}
    ensures k in ObjectsOf(h, m) <==> k in m
  {
    hide Content;
  }

  /** What is recorded about an object besides its bytes. */
  datatype Label = Label(contentType: Bytes, metadata: map<Bytes, Bytes>, createdAt: int, updatedAt: int,
                         chunkSize: nat)

  ghost function LabelOf(m: Manifest): Label {
    Label(m.contentType, m.metadata, m.createdAt, m.updatedAt, m.chunkSize)
  }

  ghost function LabelsOf(m: Manifests): map<Key, Label> {
    map k | k in m :: LabelOf(m[k])
  }

  lemma LabelsPut(m: Manifests, k: Key, x: Manifest)
    ensures LabelsOf(m[k := x]) == LabelsOf(m)[k := LabelOf(x)]
    ensures k in m ==> k in LabelsOf(m) && LabelsOf(m)[k] == LabelOf(m[k])
  {
  }

  lemma LabelsLess(m: Manifests, k: Key)
    ensures LabelsOf(m - {k}) == LabelsOf(m) - {k}
    ensures k in LabelsOf(m) <==> k in m
  {
  }

  /** The log and the files describe a consistent store, up to excess counts. */
  ghost predicate Openable(h: Hashes, es: seq<LogEntry>, files: map<ChunkId, Bytes>) {
    var s := Replay(es);
    Catalogue(h, s.manifests) && Covers(s) && Present(s.manifests, files.Keys) && ContentAddressed(h, files)
  }

  /** What a garbage collection pass reports. */
  datatype GcReport = GcReport(orphansRemoved: nat, orphansSkipped: nat, dangling: nat)

  class StorageEngine {
    const h: Hashes
    const disk: Disk
    const index: Index
    const blobs: BlobStore
    const chunkSize: nat
    const maxObjectSize: nat
    const verifyOnRead: bool
    ghost const leaked: Leaked
    // References held per session; finished sessions hold none.
    ghost var held: seq<multiset<ChunkId>>

    ghost predicate Wired() {
      && index.disk == disk && blobs.disk == disk && blobs.h == h
      && h.CollisionFree() && 0 < chunkSize && HEADER_SIZE + chunkSize < U64
    }

    /** The books balance for the key map `m`. */
    ghost predicate Core(m: Manifests)
      reads this, index, disk
    {
      && Wired() && index.Valid() && ContentAddressed(h, disk.files) && Recorded(h, disk.history)
      && Catalogue(h, index.manifests)
      && Balanced(index.chunkLocations, m, held, leaked)
      && Backed(m, held, disk.files.Keys)
    }

    /** With fsync at commits, a crash now would reveal the current key map. */
    ghost predicate Protected()
      reads index, disk
    {
      index.durability == Sync ==> CrashSafe(disk.Now(), {index.manifests})
    }

    ghost predicate Valid()
      reads this, index, disk
    {
      Core(index.manifests) && Protected()
    }

    ghost function Stocked(): Stock
      reads index, disk
    {
      Stock(index.chunkLocations, disk.files.Keys, disk.history)
    }

    ghost predicate Synced() {
      index.durability == Sync
    }

    /** The plain map the engine implements. */
    ghost function Objects(): map<Key, Bytes>
      reads index
    {
      ObjectsOf(h, index.manifests)
    }

    ghost function Labels(): map<Key, Label>
      reads index`manifests
    {
      LabelsOf(index.manifests)
    }

    constructor (h: Hashes, disk: Disk, index: Index, chunkSize: nat, maxObjectSize: nat, verifyOnRead: bool,
                 ghost leaked: Leaked)
      ensures this.h == h && this.disk == disk && this.index == index && fresh(blobs)
      ensures blobs.disk == disk && blobs.h == h && this.chunkSize == chunkSize
      ensures this.maxObjectSize == maxObjectSize && this.verifyOnRead == verifyOnRead
      ensures this.leaked == leaked && held == []
    {
      this.h := h;
      this.disk := disk;
      this.index := index;
      this.blobs := new BlobStore(disk, h);
      this.chunkSize := chunkSize;
      this.maxObjectSize := maxObjectSize;
      this.verifyOnRead := verifyOnRead;
      this.leaked := leaked;
      this.held := [];
    }

    /** Rebuild the engine from a disk. References that no manifest accounts for
        belong to sessions that died; they are carried as `leaked`. */
    static method Open(h: Hashes, disk: Disk, chunkSize: nat, maxObjectSize: nat, verifyOnRead: bool,
                       durability: Durability)
      returns (r: Result<StorageEngine>)
      requires h.CollisionFree() && 0 < chunkSize && HEADER_SIZE + chunkSize < U64
      requires disk.Readable() && Openable(h, disk.entries, disk.files) && Recorded(h, disk.history)
      requires durability == Sync ==> CrashSafe(disk.Now(), {Replay(disk.entries).manifests})
      modifies disk`log, disk`synced
      ensures r.Err? <==> Parse(disk.codec, old(disk.log)).Err?
      ensures r.Err? ==> disk.log == old(disk.log) && disk.synced == old(disk.synced)
      ensures r.Ok? ==>
        && fresh(r.value) && fresh(r.value.index) && r.value.disk == disk && r.value.h == h
        && r.value.chunkSize == chunkSize && r.value.maxObjectSize == maxObjectSize
        && r.value.index.durability == durability
        && r.value.index.State() == Replay(disk.entries)
        && r.value.held == [] && r.value.leaked == Excess(Replay(disk.entries))
        && disk.log == Recovered(old(disk.log), Parse(disk.codec, old(disk.log)).value)
        && (r.value.Valid() <==> disk.log == Render(disk.codec, disk.entries))
    {
      hide Recorded, Balanced, Backed, CrashSafe, Catalogue, ContentAddressed, WellKeyed;
      hide Good, Render, Replay, Parse, Recovered, Covers, Present, Excess;
      ghost var before := disk.Now();
      var loaded := Index.Open(disk, durability);
      if loaded.Err? { return Err(Io); }
      ghost var leaked := Excess(Replay(disk.entries));
      OpenBooks(Replay(disk.entries), disk.files.Keys);
      if durability == Sync { LaterSyncSafe(before, disk.Now(), {Replay(disk.entries).manifests}); }
      var engine := new StorageEngine(h, disk, loaded.value, chunkSize, maxObjectSize, verifyOnRead, leaked);
      r := Ok(engine);
    }

    /** Write a chunk and take one reference on it for the session at `slot`. */
    method TakeReference(ghost slot: nat, id: ChunkId, data: Bytes)
      requires Valid() && slot < |held| && id == h.sha(data) && Storable(h, data)
      modifies this`held, index`chunkLocations, index`logEntries, index`appended, disk
      ensures Valid() && |id| == 32
      ensures held == old(held)[slot := old(held)[slot] + multiset{id}]
      ensures index.chunkLocations == AddRef(old(index.chunkLocations), id, Hex.ChunkPath(id))
      ensures disk.files.Keys == old(disk.files.Keys) + {id}
      ensures old(disk.history) <= disk.history
      ensures index.durability == Sync ==> SafeSince(disk.history, |old(disk.history)|, {index.manifests})
    {
      hide Recorded, Balanced, Backed, CrashSafe, Catalogue, ContentAddressed, AddRef, DropRef, Covers, Present;
      hide Good, Render, Replay, WellKeyed, FileImage, Storable, Hex.ChunkPath, SafeSince;
      ghost var m, before, history := index.manifests, disk.Now(), disk.history;
      TakeOne(index.chunkLocations, m, held, leaked, disk.files.Keys, slot, id, Hex.ChunkPath(id));
      BackedPresent(m, held[slot := held[slot] + multiset{id}], disk.files.Keys + {id});
      var path := blobs.WriteChunk(id, data);
      ghost var written := disk.Now();
      assert disk.files.Keys == before.files.Keys + {id};
      if index.durability == Sync { FilesSafe(before, written, m); }
      index.AddChunkRef(id, path);
      held := held[slot := held[slot] + multiset{id}];
      RecordedGrows(h, history, disk.history);
      BalancedCovers(index.chunkLocations, m, held, leaked);
      if index.durability == Sync {
        AppendSafe(written, disk.Now(), {m});
        TwoMore(history, written, disk.Now(), disk.history, {m});
      }
    }

    /** Give up one reference of the holder at `slot` and remove the chunk file
        with the last one. `m` is the key map the books are kept for. */
    method DropReference(ghost m: Manifests, ghost slot: nat, id: ChunkId)
      requires Core(m) && slot < |held| && id in held[slot]
      modifies this`held, index`chunkLocations, index`logEntries, index`appended, disk
      ensures Core(m)
      ensures id in old(index.chunkLocations)
      ensures held == old(held)[slot := old(held)[slot] - multiset{id}]
      ensures index.chunkLocations == DropRef(old(index.chunkLocations), id)
      ensures disk.files.Keys == if id in index.chunkLocations then old(disk.files.Keys)
                                 else old(disk.files.Keys) - {id}
      ensures old(disk.history) <= disk.history
      ensures LastState(old(disk.history), disk.history, index.State())
      ensures old(Protected()) && Covers(index.State()) ==> Protected()
      ensures old(Protected()) && Covers(index.State()) && index.durability == Sync ==>
                SafeSince(disk.history, |old(disk.history)|, {index.manifests})
    {
      hide Recorded, Balanced, Backed, CrashSafe, Catalogue, ContentAddressed, AddRef, DropRef, Covers, Present;
      hide Good, Render, Replay, WellKeyed, FileImage;
      hide SafeSince;
      ghost var before, history, visible := disk.Now(), disk.history, index.manifests;
      DropOne(index.chunkLocations, m, held, leaked, disk.files.Keys, slot, id);
      held := held[slot := held[slot] - multiset{id}];
      var last := index.DecrementChunkRef(id);
      ghost var counted := disk.Now();
      if last { blobs.DeleteChunk(id); }
      RecordedGrows(h, history, disk.history);
      assert disk.files.Keys == if last then before.files.Keys - {id} else before.files.Keys;
      if index.durability == Sync && CrashSafe(before, {visible}) && Covers(index.State()) {
        SafeNow(before, visible);
        AppendSafe(before, counted, {visible});
        StillPresent(index.State(), before.files.Keys, id);
        FilesSafe(counted, disk.Now(), visible);
        TwoMore(history, counted, disk.Now(), disk.history, {visible});
      }
    }

    /** The same, when what others hold suffices for the key map anyway. */
    method DropGuarded(ghost m: Manifests, ghost slot: nat, id: ChunkId)
      requires Core(m) && slot < |held| && id in held[slot]
      modifies this`held, index`chunkLocations, index`logEntries, index`appended, disk
      ensures Core(m)
      ensures held == old(held)[slot := old(held)[slot] - multiset{id}]
      ensures index.chunkLocations == DropRef(old(index.chunkLocations), id)
      ensures disk.files.Keys == if id in index.chunkLocations then old(disk.files.Keys)
                                 else old(disk.files.Keys) - {id}
      ensures LastState(old(disk.history), disk.history, index.State())
      ensures old(Guarded(m, slot)) ==> Guarded(m, slot)
      ensures old(Guarded(m, slot)) && index.durability == Sync ==>
                SafeSince(disk.history, |old(disk.history)|, {index.manifests})
    {
      hide Recorded, Balanced, Backed, CrashSafe, Catalogue, ContentAddressed, DropRef;
      hide Good, Render, Replay, WellKeyed, Spare, Covers, SafeSince;
      ghost var others := held[slot := multiset{}];
      DropReference(m, slot, id);
      assert held[slot := multiset{}] == others;
      if old(Guarded(m, slot)) {
        SpareCovers(index.chunkLocations, index.manifests, m, held, leaked, slot);
      }
    }

    /** Release every reference of the holder at `slot`, one after the other. */
    method ReleaseAll(ghost m: Manifests, ghost slot: nat, ids: seq<ChunkId>)
      requires Core(m) && slot < |held| && held[slot] == multiset(ids)
      modifies this`held, index`chunkLocations, index`logEntries, index`appended, disk
      ensures Core(m)
      ensures held == old(held)[slot := multiset{}]
      ensures index.chunkLocations == DropRefs(old(index.chunkLocations), ids)
      ensures disk.files.Keys == Reclaim(old(disk.files.Keys), ids, index.chunkLocations)
      ensures old(disk.history) <= disk.history
      ensures ids == [] ==> disk.history == old(disk.history) && disk.Now() == old(disk.Now())
      ensures ids != [] ==> LastState(old(disk.history), disk.history, index.State())
      ensures old(Guarded(m, slot)) ==> Protected()
      ensures old(Guarded(m, slot)) && index.durability == Sync ==>
                SafeSince(disk.history, |old(disk.history)|, {index.manifests})
    {
      hide Core, Guarded, DropRef, DropRefs, Reclaim, SafeSince, LastState;
      ghost var locations, files, history := index.chunkLocations, disk.files.Keys, disk.history;
      ghost var guarded, maps := Guarded(m, slot), {index.manifests};
      NothingSince(disk.history, maps);
      DropRefsSnoc(locations, [], []);
      ReclaimStep(files, [], locations, []);
      for i := 0 to |ids|
        invariant Core(m)
        invariant held == old(held)[slot := multiset(ids[i..])]
        invariant index.chunkLocations == DropRefs(locations, ids[..i])
        invariant disk.files.Keys == Reclaim(files, ids[..i], index.chunkLocations)
        invariant if i == 0 then disk.history == history && disk.Now() == old(disk.Now())
                  else LastState(history, disk.history, index.State())
        invariant guarded ==> Guarded(m, slot)
        invariant guarded && index.durability == Sync ==> SafeSince(disk.history, |history|, maps)
      {
        ReleaseOne(m, slot, ids, i, locations, files, history);
      }
      assert ids[..|ids|] == ids;
      GuardedProtects(m, slot);
      if ids != [] { LastLater(history, history, index.State(), disk.history, index.State()); }
    }

    /** One turn of the release loop. */
    method ReleaseOne(ghost m: Manifests, ghost slot: nat, ids: seq<ChunkId>, i: nat,
                      ghost locations: Locations, ghost files: set<ChunkId>, ghost history: seq<Snapshot>)
      requires Core(m) && i < |ids| && slot < |held| && held[slot] == multiset(ids[i..])
      requires index.chunkLocations == DropRefs(locations, ids[..i])
      requires disk.files.Keys == Reclaim(files, ids[..i], index.chunkLocations)
      requires disk.history == history || LastState(history, disk.history, index.State())
      modifies this`held, index`chunkLocations, index`logEntries, index`appended, disk
      ensures Core(m) && held == old(held)[slot := multiset(ids[i + 1..])]
      ensures index.chunkLocations == DropRefs(locations, ids[..i + 1])
      ensures disk.files.Keys == Reclaim(files, ids[..i + 1], index.chunkLocations)
      ensures LastState(history, disk.history, index.State())
      ensures old(Guarded(m, slot)) ==> Guarded(m, slot)
      ensures index.durability == Sync && old(Guarded(m, slot))
              && old(SafeSince(disk.history, |history|, {index.manifests})) ==>
                SafeSince(disk.history, |history|, {index.manifests})
    {
      hide Core, Guarded, DropRef, DropRefs, Reclaim, SafeSince, LastState;
      ghost var id, maps := ids[i], {index.manifests};
      ghost var guarded, sofar, reached := Guarded(m, slot), disk.history, index.State();
      ghost var safe := SafeSince(sofar, |history|, maps);
      assert ids[..i + 1] == ids[..i] + [id];
      DropRefsSnoc(locations, ids[..i], id);
      ReclaimStep(files, ids[..i], index.chunkLocations, id);
      TakeFirst(ids, i);
      DropGuarded(m, slot, ids[i]);
      LastLater(history, sofar, reached, disk.history, index.State());
      if guarded && index.durability == Sync && safe {
        LongerSince(sofar, disk.history, |history|, maps, maps, maps);
      }
    }

    lemma GuardedProtects(m: Manifests, slot: nat)
      requires slot < |held|
      ensures Guarded(m, slot) ==> Protected()
    {
    }

    /** A crash now would reveal the key map, and would even without the
        references of the holder at `slot`. */
    ghost predicate Guarded(m: Manifests, slot: nat)
      requires slot < |held|
      reads this, index, disk
    {
      Protected() && (m == index.manifests || Spare(index.manifests, m, held[slot := multiset{}], leaked))
    }

    /** Open an upload session with no references yet. */
    method BeginStore(key: Key, contentType: Bytes, metadata: map<Bytes, Bytes>) returns (r: Result<StoreSession>)
      requires Valid()
      modifies this`held
      ensures Valid()
      ensures !ValidKey(key) ==> r == Err(InvalidKey) && held == old(held)
      ensures ValidKey(key) ==>
        && r.Ok? && fresh(r.value) && r.value.engine == this && r.value.slot == |old(held)|
        && r.value.key == key && r.value.contentType == contentType && r.value.metadata == metadata
        && r.value.Valid() && r.value.Fed() == [] && r.value.chunks == []
        && held == old(held) + [multiset{}]
    {
      hide Recorded, Balanced, Backed, CrashSafe, Catalogue, ContentAddressed, WellKeyed;
      hide Good, Render, Replay, ValidKey;
      if !ValidKey(key) { return Err(InvalidKey); }
      OpenSlot(index.chunkLocations, index.manifests, held, leaked, disk.files.Keys);
      var session := new StoreSession(this, |held|, key, contentType, metadata);
      held := held + [multiset{}];
      r := Ok(session);
    }

    /** Publish a manifest whose chunks the holder at `slot` has references on,
        then release the chunks of the version it replaces. */
    method Commit(ghost slot: nat, manifest: Manifest)
      requires Valid() && slot < |held| && held[slot] == multiset(manifest.chunks)
      requires ValidKey(manifest.key) && WellFormed(h, manifest)
      modifies this`held, index, disk
      ensures Valid()
      ensures index.manifests == old(index.manifests)[manifest.key := manifest]
      ensures held == old(held)[slot := multiset{}]
      ensures index.chunkLocations == DropRefs(old(index.chunkLocations), Replaced(old(index.manifests), manifest.key))
      ensures disk.files.Keys ==
              Reclaim(old(disk.files.Keys), Replaced(old(index.manifests), manifest.key), index.chunkLocations)
      ensures old(disk.history) <= disk.history
      ensures index.durability == Sync ==>
                SafeSince(disk.history, |old(disk.history)|, {old(index.manifests), index.manifests})
    {
      hide Recorded, Balanced, Backed, CrashSafe, Catalogue, ContentAddressed, DropRefs, Reclaim, WellFormed, ValidKey;
      hide Good, Render, Replay, SafeSince;
      ghost var from, m := |disk.history|, index.manifests;
      var previous := index.GetManifest(manifest.key);
      var old' := if previous == None then [] else previous.value.chunks;
      Publish(slot, manifest);
      ghost var sofar := disk.history;
      ReleaseAll(index.manifests, slot, old');
      if index.durability == Sync {
        LongerSince(sofar, disk.history, from, {m, index.manifests}, {index.manifests}, {m, index.manifests});
      }
    }

    /** The commit point: the holder's references become the manifest's, and the
        references of the replaced version are left with the holder. */
    method Publish(ghost slot: nat, manifest: Manifest)
      requires Valid() && slot < |held| && held[slot] == multiset(manifest.chunks)
      requires ValidKey(manifest.key) && WellFormed(h, manifest)
      modifies this`held, index, disk
      ensures Valid()
      ensures index.manifests == old(index.manifests)[manifest.key := manifest]
      ensures held == old(held)[slot := multiset(Replaced(old(index.manifests), manifest.key))]
      ensures index.chunkLocations == old(index.chunkLocations) && disk.files == old(disk.files)
      ensures old(disk.history) <= disk.history
      ensures index.durability == Sync ==>
                SafeSince(disk.history, |old(disk.history)|, {old(index.manifests), index.manifests})
    {
      hide Recorded, Balanced, Backed, CrashSafe, Catalogue, ContentAddressed, WellFormed, ValidKey;
      hide Good, Render, Replay, AppendStep, SafeSince;
      ghost var before, from, m, history := disk.Now(), |disk.history|, index.manifests, disk.history;
      Exchange(index.chunkLocations, m, held, leaked, disk.files.Keys, slot, manifest);
      CatalogueMore(h, m, manifest);
      ReplaySnoc(disk.entries, LogEntry.PutManifest(manifest));
      index.PutManifest(manifest);
      RecordedGrows(h, history, disk.history);
      held := held[slot := multiset(Replaced(m, manifest.key))];
      ProtectedNow();
      if index.durability == Sync { CommitHistory(before, from, m, LogEntry.PutManifest(manifest)); }
    }

    /** The disk states passed while a manifest entry is logged reveal the old or
        the new map. */
    lemma CommitHistory(before: Snapshot, from: nat, m: Manifests, entry: LogEntry)
      requires Core(index.manifests)
      requires CrashSafe(before, {m}) && before.files == disk.files
      requires Replay(before.entries + [entry]) == index.State()
      requires forall i :: from <= i < |disk.history| ==> AppendStep(disk.history[i], before, entry, index.State())
      ensures SafeSince(disk.history, from, {m, index.manifests})
    {
      hide Recorded, Balanced, Backed, CrashSafe, Catalogue, ContentAddressed, Good, Render;
      hide Replay, Covers, Present, AppendStep;
      BalancedCovers(index.chunkLocations, index.manifests, held, leaked);
      BackedPresent(index.manifests, held, disk.files.Keys);
      forall i | from <= i < |disk.history| ensures CrashSafe(disk.history[i], {m, index.manifests}) {
        CommitSafe(disk.history[i], before, entry, index.State(), m);
      }
    }

    /** A valid engine can be reopened from its disk. */
    lemma CanReopen()
      requires Valid()
      ensures disk.Readable() && Openable(h, disk.entries, disk.files) && Recorded(h, disk.history)
      ensures Parse(disk.codec, disk.log).Ok? && Recovered(disk.log, Parse(disk.codec, disk.log).value) == disk.log
      ensures Replay(disk.entries) == index.State()
    {
      hide Recorded, Balanced, Backed, CrashSafe, Catalogue, ContentAddressed, Good, Render;
      hide Replay, Parse, Covers, Present;
      ParseRendered(disk.codec, disk.entries);
      BalancedCovers(index.chunkLocations, index.manifests, held, leaked);
      BackedPresent(index.manifests, held, disk.files.Keys);
    }

    method List(prefix: Bytes, limit: nat, cursor: Bytes) returns (results: seq<Manifest>, next: Option<Key>)
      requires WellKeyed(index.manifests)
      ensures forall i :: 0 <= i < |results| ==>
                results[i].key in index.manifests && index.manifests[results[i].key] == results[i]
      ensures KeysOf(results) == PageKeys(index.manifests.Keys, prefix, limit, cursor)
      ensures next == NextCursor(KeysOf(results), limit)
      ensures IsPage(index.manifests.Keys, prefix, limit, cursor, KeysOf(results), next)
    {
      results, next := index.ListManifests(prefix, limit, cursor);
    }

    /** Every chunk of a visible object is on disk. */
    lemma ObjectOnDisk(key: Key)
      requires Valid() && key in index.manifests
      ensures var m := index.manifests[key];
              var data := Content(h, m.chunks);
              && OnDisk(h, disk.files.Keys, m.chunks, data, m.chunkSize)
              && m.totalSize == |data| && m.checksum == h.sha(data)
    {
      hide Recorded, Balanced, CrashSafe, Split;
      BackedPresent(index.manifests, held, disk.files.Keys);
    }

    method GetManifest(key: Key) returns (m: Option<Manifest>)
      ensures m == if key in index.manifests then Some(index.manifests[key]) else None
    {
      m := index.GetManifest(key);
    }

    method Read(key: Key) returns (r: Result<Bytes>)
      requires Valid()
      ensures r == if key in Objects() then Ok(Objects()[key]) else Err(NotFound)
    {
      hide Recorded, Balanced, Backed, CrashSafe, Catalogue, ContentAddressed, WellKeyed, Good, Render, Replay;
      var found := index.GetManifest(key);
      if found == None { return Err(NotFound); }
      var manifest := found.value;
      ObjectOnDisk(key);
      ghost var originals := Originals(h, manifest.chunks);
      var buf: Bytes := [];
      for i := 0 to |manifest.chunks|
        invariant buf == Concat(originals[..i])
      {
        r := blobs.ReadChunk(manifest.chunks[i]);
        if r.Err? { return; }
        ConcatSnoc(originals[..i], r.value);
        assert originals[..i + 1] == originals[..i] + [r.value];
        buf := buf + r.value;
      }
      assert originals[..|manifest.chunks|] == originals;
      r := Checked(buf, manifest.checksum);
    }

    /** Compare what was read with the recorded checksum, if that is wanted. */
    method Checked(buf: Bytes, checksum: Bytes) returns (r: Result<Bytes>)
      ensures r == if verifyOnRead && checksum != [] && h.sha(buf) != checksum then Err(ChunkIntegrity) else Ok(buf)
    {
      if verifyOnRead && checksum != [] {
        if h.sha(buf) != checksum { return Err(ChunkIntegrity); }
      }
      r := Ok(buf);
    }

    /** Remove an object, dropping the chunks nothing else lists. */
    method Delete(key: Key) returns (deleted: bool)
      requires Valid()
      modifies this`held, index, disk
      ensures Valid() && held == old(held)
      ensures deleted == (key in old(index.manifests))
      ensures index.manifests == old(index.manifests) - {key}
      ensures Objects() == old(Objects()) - {key}
      ensures !deleted ==>
        && index.chunkLocations == old(index.chunkLocations)
        && disk.files == old(disk.files) && disk.history == old(disk.history)
      ensures deleted ==>
        && index.chunkLocations == DropRefs(old(index.chunkLocations), old(index.manifests)[key].chunks)
        && disk.files.Keys == Reclaim(old(disk.files.Keys), old(index.manifests)[key].chunks, index.chunkLocations)
      ensures old(disk.history) <= disk.history
      ensures deleted && index.durability == Sync ==>
        (SafeSince(disk.history, |old(disk.history)|, {old(index.manifests), index.manifests})
         <==> Redundant(old(index.chunkLocations), old(index.manifests), key))
    {
      hide Recorded, Balanced, Backed, CrashSafe, Catalogue, ContentAddressed, DropRefs, Reclaim;
      hide Good, Render, Replay, ObjectsOf, SafeSince, Redundant, Spare, LastState, AppendStep, Covers;
      ObjectsLess(h, index.manifests, key);
      var found := index.GetManifest(key);
      if found == None {
        assert index.manifests - {key} == index.manifests;
        return false;
      }
      var manifest := found.value;
      ghost var m, from := index.manifests, disk.history;
      ghost var covered := Redundant(index.chunkLocations, m, key);
      Dispose(key);
      ghost var before, middle, dropped := disk.Now(), disk.history, index.State();
      Unlist(key);
      if index.durability == Sync {
        if covered {
          CommitHistory(before, |middle|, m, LogEntry.DeleteManifest(key));
          LongerSince(middle, disk.history, |from|, {m}, {m, index.manifests}, {m, index.manifests});
        } else {
          DroppedEarly(from, middle, disk.history, dropped, {m, index.manifests});
        }
      }
      return true;
    }

    /** Drop the references of an object that is still listed. */
    method Dispose(key: Key)
      requires Valid() && key in index.manifests
      modifies this`held, index`chunkLocations, index`logEntries, index`appended, disk
      ensures Core(index.manifests - {key}) && held == old(held)
      ensures index.chunkLocations == DropRefs(old(index.chunkLocations), index.manifests[key].chunks)
      ensures disk.files.Keys ==
              Reclaim(old(disk.files.Keys), index.manifests[key].chunks, index.chunkLocations)
      ensures old(disk.history) <= disk.history
      ensures Redundant(old(index.chunkLocations), index.manifests, key) ==> Protected()
      ensures Redundant(old(index.chunkLocations), index.manifests, key) && index.durability == Sync ==>
                SafeSince(disk.history, |old(disk.history)|, {index.manifests})
      ensures !Redundant(old(index.chunkLocations), index.manifests, key) ==>
                LastState(old(disk.history), disk.history, index.State()) && !Covers(index.State())
    {
      hide Recorded, Balanced, Backed, CrashSafe, Catalogue, ContentAddressed, DropRefs, Reclaim;
      hide Good, Render, Replay, SafeSince, Spare, Redundant, LastState, Covers, Sum;
      ghost var m, rest, slot, chunks := index.manifests, index.manifests - {key}, |held|, index.manifests[key].chunks;
      ghost var spare := Redundant(index.chunkLocations, m, key);
      SpareIff(index.chunkLocations, m, key, held, leaked);
      if chunks == [] { NothingDropped(key); }
      Detach(index.chunkLocations, m, held, leaked, disk.files.Keys, key);
      held := held + [multiset(chunks)];
      assert held[slot := multiset{}] == held[..slot] + [multiset{}];
      ReleaseAll(rest, slot, index.manifests[key].chunks);
      ForgetLast(index.chunkLocations, rest, held, leaked, disk.files.Keys);
      held := held[..slot];
      if !spare { TooFew(index.chunkLocations, m, rest, held, leaked); }
    }

    lemma NothingDropped(key: Key)
      requires Valid() && key in index.manifests && index.manifests[key].chunks == []
      ensures Redundant(index.chunkLocations, index.manifests, key)
    {
      hide Recorded, Backed, CrashSafe, Catalogue, ContentAddressed, Good, Render, Replay, Occurrences;
      BalancedCovers(index.chunkLocations, index.manifests, held, leaked);
      assert forall id :: multiset(index.manifests[key].chunks)[id] == 0;
    }

    /** Log the removal of an object whose references have been released. */
    method Unlist(key: Key)
      requires key in index.manifests && Core(index.manifests - {key})
      modifies index, disk
      ensures Valid() && index.manifests == old(index.manifests) - {key}
      ensures index.chunkLocations == old(index.chunkLocations) && disk.files == old(disk.files)
      ensures old(disk.history) < disk.history
      ensures Replay(old(disk.entries) + [LogEntry.DeleteManifest(key)]) == index.State()
      ensures forall i :: |old(disk.history)| <= i < |disk.history| ==>
                AppendStep(disk.history[i], old(disk.Now()), LogEntry.DeleteManifest(key), index.State())
    {
      hide Recorded, Balanced, Backed, CrashSafe, Catalogue, ContentAddressed, Good, Render, Replay, AppendStep;
      CatalogueLess(h, index.manifests, key);
      ReplaySnoc(disk.entries, LogEntry.DeleteManifest(key));
      ghost var history := disk.history;
      index.DeleteManifest(key);
      RecordedGrows(h, history, disk.history);
      ProtectedNow();
    }

    /** A balanced, fully synced index is crash safe. */
    lemma ProtectedNow()
      requires Core(index.manifests) && (index.durability == Sync ==> disk.synced == |disk.entries|)
      ensures Protected()
    {
      hide Recorded, Balanced, Backed, Catalogue, ContentAddressed, Good, Render, Replay, Covers, Present;
      BalancedCovers(index.chunkLocations, index.manifests, held, leaked);
      BackedPresent(index.manifests, held, disk.files.Keys);
      if index.durability == Sync { SyncedSafe(disk.Now(), {index.manifests}); }
    }

    /** Move an object to a fresh key; its chunks are untouched. */
    method Rename(from: Key, to: Key, now: int) returns (r: Result<Manifest>)
      requires Valid()
      modifies index, disk
      ensures Valid()
      ensures index.chunkLocations == old(index.chunkLocations) && disk.files == old(disk.files)
      ensures r == if !ValidKey(to) || from == to then Err(InvalidKey)
                   else if from !in old(index.manifests) then Err(NotFound)
                   else if to in old(index.manifests) then Err(AlreadyExists)
                   else Ok(old(index.manifests)[from].(key := to, updatedAt := now))
      ensures index.manifests == if r.Err? then old(index.manifests) else old(index.manifests)[to := r.value] - {from}
      ensures Objects() == if r.Err? then old(Objects()) else old(Objects())[to := old(Objects())[from]] - {from}
      ensures old(disk.history) <= disk.history
      ensures SafeSince(disk.history, |old(disk.history)|, {old(index.manifests), index.manifests}) <==>
              !ValidKey(to) || from == to || from !in old(index.manifests) || to in old(index.manifests)
    {
      hide StorageEngine.Valid, ValidKey, ObjectsOf, SafeSince;
      NothingSince(disk.history, {index.manifests});
      assert {index.manifests, index.manifests} == {index.manifests};
      if !ValidKey(to) || from == to { return Err(InvalidKey); }
      var found := index.GetManifest(from);
      if found == None { return Err(NotFound); }
      var taken := index.GetManifest(to);
      if taken != None { return Err(AlreadyExists); }
      var moved := found.value.(key := to, updatedAt := now);
      ObjectsPut(h, index.manifests, from, found.value);
      ObjectsPut(h, index.manifests, to, moved);
      ObjectsLess(h, index.manifests[to := moved], from);
      Move(from, moved);
      r := Ok(moved);
    }

    /** The two log entries of a rename. */
    method Move(from: Key, moved: Manifest)
      requires Valid() && from in index.manifests && moved.key !in index.manifests && ValidKey(moved.key)
      requires moved == index.manifests[from].(key := moved.key, updatedAt := moved.updatedAt)
      modifies index, disk
      ensures Valid() && index.manifests == old(index.manifests)[moved.key := moved] - {from}
      ensures index.chunkLocations == old(index.chunkLocations) && disk.files == old(disk.files)
      ensures old(disk.history) <= disk.history
      ensures !SafeSince(disk.history, |old(disk.history)|, {old(index.manifests), index.manifests})
    {
      hide Recorded, Balanced, Backed, CrashSafe, Catalogue, ContentAddressed, WellFormed, ValidKey;
      hide Good, Render, Replay, SafeSince, AppendStep;
      MoveKey(index.chunkLocations, index.manifests, held, leaked, disk.files.Keys, from, moved);
      CatalogueMove(h, index.manifests, from, moved);
      ghost var history, m, before := disk.history, index.manifests, disk.Now();
      ReplaySnoc(disk.entries, LogEntry.PutManifest(moved));
      index.PutManifest(moved);
      RecordedGrows(h, history, disk.history);
      ghost var middle, s := disk.history, index.State();
      index.DeleteManifest(from);
      RecordedGrows(h, middle, disk.history);
      ProtectedNow();
      BothKeys(history, middle, disk.history, before, s, m, from, moved);
    }

    /** Remove the chunk files nothing in the index tracks, except recent ones,
        and count the tracked chunks whose file is missing. */
    method Gc(recent: set<ChunkId>) returns (report: GcReport)
      requires Valid()
      modifies disk`files, disk`history
      ensures Valid()
      ensures disk.files.Keys == old(disk.files.Keys) * (index.chunkLocations.Keys + recent)
      ensures report.orphansRemoved == |old(disk.files.Keys) - index.chunkLocations.Keys - recent|
      ensures report.orphansSkipped == |(old(disk.files.Keys) - index.chunkLocations.Keys) * recent|
      ensures report.dangling == |index.chunkLocations.Keys - disk.files.Keys|
      ensures leaked == map[] ==> report.dangling == 0
      ensures old(disk.history) <= disk.history
      ensures index.durability == Sync ==> SafeSince(disk.history, |old(disk.history)|, {index.manifests})
    {
      hide StorageEngine.Valid, SafeSince;
      TrackedBacked();
      SurvivingFiles(disk.files.Keys, index.chunkLocations.Keys, recent);
      var removed, skipped := Sweep(recent);
      TrackedBacked();
      var dangling := |index.chunkLocations.Keys - disk.files.Keys|;
      ghost var missing := index.chunkLocations.Keys - disk.files.Keys;
      assert leaked == map[] ==> missing == {};
      report := GcReport(removed, skipped, dangling);
    }

    /** The removal loop of `gc`. */
    method Sweep(recent: set<ChunkId>) returns (removed: nat, skipped: nat)
      requires Valid()
      modifies disk`files, disk`history
      ensures Valid()
      ensures var files, tracked := old(disk.files.Keys), index.chunkLocations.Keys;
              && disk.files.Keys == files - Gone(files, tracked, recent)
              && removed == |Gone(files, tracked, recent)| && skipped == |Left(files, tracked, recent)|
      ensures old(disk.history) <= disk.history
      ensures index.durability == Sync ==> SafeSince(disk.history, |old(disk.history)|, {index.manifests})
    {
      hide StorageEngine.Valid, StrictlySorted, Elements, SweptTo, SafeSince, Gone, Left;
      ghost var files, tracked := disk.files.Keys, index.chunkLocations.Keys;
      ghost var from, maps := |disk.history|, {index.manifests};
      BlobsHere();
      var ids := blobs.IterChunkFiles();
      removed, skipped := 0, 0;
      SweepEnds(files, files, ids, tracked, recent, 0, 0);
      NothingSince(disk.history, maps);
      for i := 0 to |ids|
        invariant Valid() && old(disk.history) <= disk.history
        invariant SweptTo(files, disk.files.Keys, ids, i, tracked, recent, removed, skipped)
        invariant index.durability == Sync ==> SafeSince(disk.history, from, maps)
      {
        SweepStep(files, disk.files.Keys, ids, i, tracked, recent, removed, skipped);
        ghost var sofar := disk.history;
        var gone, kept := SweepOne(ids[i], recent);
        removed, skipped := removed + (if gone then 1 else 0), skipped + (if kept then 1 else 0);
        if index.durability == Sync { LongerSince(sofar, disk.history, from, maps, maps, maps); }
      }
      SweepEnds(files, disk.files.Keys, ids, tracked, recent, removed, skipped);
    }

    /** Remove an untracked file, unless it is recent. */
    method SweepOne(id: ChunkId, recent: set<ChunkId>) returns (gone: bool, kept: bool)
      requires Valid()
      modifies disk`files, disk`history
      ensures Valid()
      ensures gone == (id !in index.chunkLocations && id !in recent)
      ensures kept == (id !in index.chunkLocations && id in recent)
      ensures disk.files.Keys == if gone then old(disk.files.Keys) - {id} else old(disk.files.Keys)
      ensures old(disk.history) <= disk.history
      ensures index.durability == Sync ==> SafeSince(disk.history, |old(disk.history)|, {index.manifests})
    {
      hide StorageEngine.Valid, SafeSince;
      NothingSince(disk.history, {index.manifests});
      gone, kept := false, false;
      if id in index.chunkLocations { return; }
      if id in recent { return false, true; }
      RemoveOrphan(id);
      gone := true;
    }

    lemma BlobsHere()
      requires Valid()
      ensures blobs.disk == disk
    {
    }

    /** Remove the file of a chunk that nothing tracks. */
    method RemoveOrphan(id: ChunkId)
      requires Valid() && id !in index.chunkLocations
      modifies disk`files, disk`history
      ensures Valid()
      ensures disk.files.Keys == old(disk.files.Keys) - {id}
      ensures old(disk.history) <= disk.history
      ensures index.durability == Sync ==> SafeSince(disk.history, |old(disk.history)|, {index.manifests})
    {
      hide Recorded, ContentAddressed, CrashSafe, Catalogue, Balanced, Backed, Needed, Present, SafeSince;
      hide Good, Render, Replay, WellKeyed;
      ghost var before, history, files := disk.Now(), disk.history, disk.files.Keys;
      TrackedBacked();
      blobs.RemoveOrphan(id);
      RecordedGrows(h, history, disk.history);
      OrphanUnneeded(index.manifests, held, index.chunkLocations.Keys, files, id);
      BackedPresent(index.manifests, held, disk.files.Keys);
      if index.durability == Sync {
        FilesSafe(before, disk.Now(), index.manifests);
        TwoMore(history, disk.Now(), disk.Now(), disk.history, {index.manifests});
      }
    }

    /** Needed chunks are tracked; without leaks, tracked chunks are needed. */
    lemma TrackedBacked()
      requires Valid()
      ensures forall id :: Needed(index.manifests, held, id) ==> id in index.chunkLocations && id in disk.files
      ensures leaked == map[] ==> index.chunkLocations.Keys <= disk.files.Keys
    {
      hide Recorded, CrashSafe, Catalogue, ContentAddressed, Occurrences, Sum, Good, Render, Replay;
      forall id | Needed(index.manifests, held, id) ensures id in index.chunkLocations && id in disk.files {
        assert RefCount(index.chunkLocations, id) > 0;
      }
      if leaked == map[] {
        forall id | id in index.chunkLocations ensures id in disk.files {
          assert RefCount(index.chunkLocations, id) == Occurrences(Lists(index.manifests))[id] + Sum(held)[id];
          assert Needed(index.manifests, held, id);
        }
      }
    }

    /** A byte range of an object, as one buffer. */
    method ReadRange(key: Key, offset: nat, length: nat) returns (r: Result<Bytes>)
      requires Valid() && offset + length < U64
      ensures r == if key in Objects() then Ok(Slice(Objects()[key], offset, length)) else Err(NotFound)
      ensures key in Objects() ==> r.Ok? && IsRange(Objects()[key], offset, length, r.value)
    {
      hide StorageEngine.Valid, WellFormed, OnDisk, Slice, RangeEnd, Content;
      var found := index.GetManifest(key);
      if found == None { return Err(NotFound); }
      var manifest := found.value;
      ObjectOnDisk(key);
      SliceBounds(Content(h, manifest.chunks), offset, length);
      if offset >= manifest.totalSize { return Ok([]); }
      var end := RangeEnd(offset, length, manifest.totalSize);
      r := ReadChunks(manifest.chunks, Content(h, manifest.chunks), offset, end, manifest.chunkSize);
    }

    /** The loop over the chunks of a range. */
    method ReadChunks(ids: seq<ChunkId>, ghost data: Bytes, offset: nat, end: nat, size: nat)
      returns (r: Result<Bytes>)
      requires Valid() && OnDisk(h, disk.files.Keys, ids, data, size) && offset < end <= |data|
      ensures r == Ok(data[offset..end])
    {
      hide StorageEngine.Valid, Split, Piece, Emitted, FirstChunk, LastChunk;
      EmittedEnds(data, offset, end, size);
      var startIdx, endIdx := FirstChunk(offset, size), LastChunk(end, size);
      var buf: Bytes := [];
      var idx := startIdx;
      while idx <= endIdx
        invariant startIdx <= idx <= endIdx + 1
        invariant buf == Emitted(data, offset, end, size, idx)
      {
        Extend(data, size, offset, end, idx);
        if idx >= |ids| { break; }
        r := ReadChunk(ids[idx]);
        if r.Err? { return; }
        var piece := Piece(r.value, idx, offset, end, size);
        if piece == None { return Err(Panic); }
        buf := buf + piece.value;
        idx := idx + 1;
      }
      r := Ok(buf);
    }

    method ReadChunk(id: ChunkId) returns (r: Result<Bytes>)
      requires Valid()
      ensures r == if id in disk.files then Ok(h.origin(id)) else Err(NotFound)
    {
      hide Recorded, Balanced, Backed, CrashSafe, Catalogue, ContentAddressed, WellKeyed, Good, Render, Replay;
      r := blobs.ReadChunk(id);
    }

    /** A byte range of an object, one frame a chunk. */
    method Stream(key: Key, offset: nat, length: nat) returns (r: Result<seq<Bytes>>)
      requires Valid() && offset + length < U64
      ensures key !in Objects() ==> r == Err(NotFound)
      ensures key in Objects() ==> r.Ok? && Concat(r.value) == Slice(Objects()[key], offset, length)
      ensures key in Objects() ==> IsRange(Objects()[key], offset, length, Concat(r.value))
      ensures r.Ok? ==> forall i :: 0 <= i < |r.value| ==> r.value[i] != []
    {
      hide StorageEngine.Valid, WellFormed, Slice, RangeEnd, Content, Split, Concat, Emitted, FirstChunk, LastChunk;
      var found := index.GetManifest(key);
      if found == None { return Err(NotFound); }
      var manifest := found.value;
      ObjectOnDisk(key);
      ghost var data := Content(h, manifest.chunks);
      SliceBounds(data, offset, length);
      ConcatSnoc([], []);
      if offset >= manifest.totalSize { return Ok([]); }
      var end := RangeEnd(offset, length, manifest.totalSize);
      var size := manifest.chunkSize;
      EmittedEnds(data, offset, end, size);
      var startIdx, endIdx := FirstChunk(offset, size), LastChunk(end, size);
      var ids := manifest.chunks[startIdx..Min(endIdx, |manifest.chunks| - 1) + 1];
      var frames := Frames(ids, manifest.chunks, data, startIdx, offset, end, size);
      r := if frames == None then Err(Panic) else Ok(frames.value);
    }

    /** The task behind `stream`: read and cut one chunk after the other. */
    method Frames(ids: seq<ChunkId>, ghost all: seq<ChunkId>, ghost data: Bytes,
                  startIdx: nat, offset: nat, end: nat, size: nat)
      returns (r: Option<seq<Bytes>>)
      requires Valid() && OnDisk(h, disk.files.Keys, all, data, size) && offset < end <= |data|
      requires startIdx == FirstChunk(offset, size) && startIdx + |ids| == LastChunk(end, size) + 1 <= |all|
      requires ids == all[startIdx..startIdx + |ids|]
      ensures r.Some? && Concat(r.value) == data[offset..end]
      ensures forall i :: 0 <= i < |r.value| ==> r.value[i] != []
    {
      hide StorageEngine.Valid, Split, Piece, Emitted, FirstChunk, LastChunk, Concat;
      EmittedEnds(data, offset, end, size);
      var frames: seq<Bytes> := [];
      ConcatSnoc([], []);
      for i := 0 to |ids|
        invariant Concat(frames) == Emitted(data, offset, end, size, startIdx + i)
        invariant forall j :: 0 <= j < |frames| ==> frames[j] != []
      {
        var idx := startIdx + i;
        Extend(data, size, offset, end, idx);
        assert ids[i] == all[idx];
        var chunk := ReadChunk(ids[i]);
        if chunk.Err? { return None; }
        var piece := Piece(chunk.value, idx, offset, end, size);
        if piece == None { return None; }
        ConcatSnoc(frames, piece.value);
        frames := frames + [piece.value];
      }
      r := Some(frames);
    }
  }

  /** The chunks of `data`, each with its file. */
  ghost predicate OnDisk(h: Hashes, files: set<ChunkId>, ids: seq<ChunkId>, data: Bytes, size: nat) {
    && size > 0 && |ids| == |Split(data, size)|
    && forall i :: 0 <= i < |ids| ==> ids[i] in files && h.origin(ids[i]) == Split(data, size)[i]
  }

  lemma IdsSnoc(h: Hashes, pieces: seq<Bytes>, data: Bytes)
    ensures Ids(h, pieces + [data]) == Ids(h, pieces) + [h.sha(data)]
    ensures AllUsed(h, pieces) && h.used(data) ==> AllUsed(h, pieces + [data])
  {
  }

  /** There are new disk states, and the last one's log replays to `s`. */
  ghost predicate LastState(before: seq<Snapshot>, after: seq<Snapshot>, s: IndexState) {
    before < after && Replay(after[|after| - 1].entries) == s
  }

  lemma LastLater(before: seq<Snapshot>, middle: seq<Snapshot>, s: IndexState, after: seq<Snapshot>, s': IndexState)
    requires before == middle || LastState(before, middle, s)
    requires LastState(middle, after, s')
    ensures LastState(before, after, s') && before <= after && middle <= after
  {
    hide Replay;
  }

  /** References dropped in the log before the manifest that lists them: a crash
      in between reveals the object with a count too low, its chunk files perhaps
      gone. */
  lemma DroppedEarly(before: seq<Snapshot>, middle: seq<Snapshot>, after: seq<Snapshot>, s: IndexState,
                     maps: set<Manifests>)
    requires LastState(before, middle, s) && middle <= after && !Covers(s)
    ensures !SafeSince(after, |before|, maps)
  {
    hide CrashSafe, Replay, Covers;
    assert after[|middle| - 1] == middle[|middle| - 1];
    Exposed(after[|middle| - 1], maps);
  }

  /** Two entries for one rename: a crash in between reveals both keys. */
  lemma BothKeys(before: seq<Snapshot>, middle: seq<Snapshot>, after: seq<Snapshot>, d: Snapshot, s: IndexState,
                 m: Manifests, from: Key, x: Manifest)
    requires before < middle <= after && from in m && x.key !in m
    requires AppendStep(middle[|before|], d, LogEntry.PutManifest(x), s)
    requires Replay(d.entries + [LogEntry.PutManifest(x)]) == s && s.manifests == m[x.key := x]
    ensures !SafeSince(after, |before|, {m, m[x.key := x] - {from}})
  {
    hide CrashSafe, Replay;
    assert x.key in s.manifests && from in s.manifests;
    assert after[|before|] == middle[|before|];
    Exposed(after[|before|], {m, m[x.key := x] - {from}});
  }

  /** At most two new disk states, both crash safe. */
  lemma TwoMore(before: seq<Snapshot>, a: Snapshot, b: Snapshot, after: seq<Snapshot>, maps: set<Manifests>)
    requires before <= after && forall i :: |before| <= i < |after| ==> after[i] == a || after[i] == b
    requires CrashSafe(a, maps) && CrashSafe(b, maps)
    ensures SafeSince(after, |before|, maps)
  {
  }

  lemma NothingSince(history: seq<Snapshot>, maps: set<Manifests>)
    ensures SafeSince(history, |history|, maps)
  {
  }

  /** The path recorded for a chunk. */
  ghost function PathOf(): ChunkId -> Bytes {
    (id: ChunkId) => if |id| == 32 then Hex.ChunkPath(id) else []
  }

  /** The chunk table, the chunk files and the disk's past. */
  datatype Stock = Stock(locations: Locations, files: set<ChunkId>, history: seq<Snapshot>)

  /** From `a` to `b` exactly one reference was taken for each of `ids`, and every
      disk state passed reveals the key map `m`, if commits are synced. */
  ghost predicate Grew(a: Stock, b: Stock, ids: seq<ChunkId>, synced: bool, m: Manifests) {
    && b.locations == AddRefs(a.locations, ids, PathOf()) && b.files == a.files + Elements(ids)
    && a.history <= b.history && (synced ==> SafeSince(b.history, |a.history|, {m}))
  }

  lemma GrewNothing(a: Stock, synced: bool, m: Manifests)
    ensures Grew(a, a, [], synced, m)
  {
  }

  lemma GrewMeans(a: Stock, b: Stock, ids: seq<ChunkId>, synced: bool, m: Manifests)
    requires Grew(a, b, ids, synced, m)
    ensures a.files <= b.files && a.history <= b.history
    ensures synced ==> SafeSince(b.history, |a.history|, {m})
  {
  }

  lemma GrewOne(a: Stock, b: Stock, id: ChunkId, synced: bool, m: Manifests)
    requires |id| == 32 && b.locations == AddRef(a.locations, id, Hex.ChunkPath(id)) && b.files == a.files + {id}
    requires a.history <= b.history && (synced ==> SafeSince(b.history, |a.history|, {m}))
    ensures Grew(a, b, [id], synced, m)
  {
    hide SafeSince;
    AddRefsSnoc(a.locations, [], id, PathOf());
    assert [] + [id] == [id];
    assert Elements([id]) == {id};
  }

  lemma GrewThen(a: Stock, b: Stock, c: Stock, x: seq<ChunkId>, y: seq<ChunkId>, synced: bool, m: Manifests)
    requires Grew(a, b, x, synced, m) && Grew(b, c, y, synced, m)
    ensures Grew(a, c, x + y, synced, m)
  {
    hide SafeSince;
    AddRefsAppend(a.locations, x, y, PathOf());
    assert Elements(x + y) == Elements(x) + Elements(y);
    if synced { LongerSince(b.history, c.history, |a.history|, {m}, {m}, {m}); }
  }

  /** An upload in progress: bytes accumulate in `buf` and are flushed to the
      blob store a chunk at a time. */
  class StoreSession {
    const engine: StorageEngine
    ghost const slot: nat
    const key: Key
    const contentType: Bytes
    const metadata: map<Bytes, Bytes>
    var hashed: Bytes // what the running SHA-256 has been fed
    var totalSize: nat
    var chunks: seq<ChunkId>
    var buf: Bytes
    var referenced: seq<ChunkId>
    ghost var pieces: seq<Bytes> // the chunks flushed so far
    ghost var open: bool

    /** Every byte accepted so far. */
    ghost function Fed(): Bytes
      reads this
    {
      hashed + buf
    }

    ghost predicate Linked()
      reads this, engine`held
    {
      open && slot < |engine.held| && engine.held[slot] == multiset(chunks) && referenced == chunks
    }

    ghost predicate Consistent()
      reads this
    {
      && chunks == Ids(engine.h, pieces) && AllUsed(engine.h, pieces)
      && hashed == Concat(pieces) && totalSize == |hashed|
      && engine.chunkSize > 0 && ValidKey(key)
    }

    /** What was fed is split into chunks as far as possible. */
    ghost predicate Ready()
      reads this
    {
      && Consistent()
      && pieces == FullChunks(Fed(), engine.chunkSize) && buf == Leftover(Fed(), engine.chunkSize)
    }

    ghost predicate Valid()
      reads this, engine`held
    {
      Linked() && Ready()
    }

    constructor (engine: StorageEngine, ghost slot: nat, key: Key, contentType: Bytes, metadata: map<Bytes, Bytes>)
      requires engine.chunkSize > 0 && ValidKey(key)
      ensures this.engine == engine && this.slot == slot && this.key == key
      ensures this.contentType == contentType && this.metadata == metadata
      ensures open && referenced == chunks == [] && pieces == [] && Fed() == [] && buf == [] && Consistent()
    {
      this.engine := engine;
      this.slot := slot;
      this.key := key;
      this.contentType := contentType;
      this.metadata := metadata;
      hashed, totalSize, chunks, buf, referenced := [], 0, [], [], [];
      pieces, open := [], true;
    }

    /** Store the buffer as a content-addressed chunk. */
    method FlushChunk()
      requires engine.Valid() && Linked() && Consistent()
      requires buf != [] ==> Storable(engine.h, buf)
      modifies this`hashed, this`totalSize, this`chunks, this`buf, this`referenced, this`pieces
      modifies engine`held, engine.index`chunkLocations, engine.index`logEntries, engine.index`appended, engine.disk
      ensures engine.Valid() && Linked() && Consistent() && buf == []
      ensures Fed() == old(Fed())
      ensures pieces == if old(buf) == [] then old(pieces) else old(pieces) + [old(buf)]
      ensures chunks == if old(buf) == [] then old(chunks) else old(chunks) + [engine.h.sha(old(buf))]
      ensures engine.held == old(engine.held)[slot := multiset(chunks)]
      ensures Grew(old(engine.Stocked()), engine.Stocked(), chunks[|old(chunks)|..], engine.Synced(),
                   engine.index.manifests)
    {
      hide StorageEngine.Valid, Concat, AddRef, Ids, AllUsed, SafeSince, Grew, Hex.ChunkPath, ValidKey;
      ghost var before, synced, m := engine.Stocked(), engine.Synced(), engine.index.manifests;
      GrewNothing(before, synced, m);
      if buf == [] {
        assert chunks[|chunks|..] == [];
        assert engine.held[slot := multiset(chunks)] == engine.held;
        return;
      }
      var chunkData := buf;
      buf := [];
      var id := engine.h.sha(chunkData);
      engine.TakeReference(slot, id, chunkData);
      GrewOne(before, engine.Stocked(), id, synced, m);
      Record(id, chunkData);
      assert chunks[|old(chunks)|..] == [id];
    }

    /** The in-memory side of a flush. */
    method Record(id: ChunkId, chunkData: Bytes)
      requires Consistent() && id == engine.h.sha(chunkData) && engine.h.used(chunkData)
      modifies this`hashed, this`totalSize, this`chunks, this`referenced, this`pieces
      ensures Consistent()
      ensures hashed == old(hashed) + chunkData && pieces == old(pieces) + [chunkData]
      ensures chunks == old(chunks) + [id] && referenced == old(referenced) + [id]
    {
      hide Concat, Ids, AllUsed;
      ConcatSnoc(pieces, chunkData);
      IdsSnoc(engine.h, pieces, chunkData);
      referenced := referenced + [id];
      hashed := hashed + chunkData;
      totalSize := totalSize + |chunkData|;
      chunks := chunks + [id];
      pieces := pieces + [chunkData];
    }

    /** Feed bytes; refused as a whole when they would exceed the size limit. */
    method Write(data: Bytes) returns (r: Result<()>)
      requires engine.Valid() && Valid()
      requires AllUsed(engine.h, FullChunks(Fed() + data, engine.chunkSize))
      modifies this`hashed, this`totalSize, this`chunks, this`buf, this`referenced, this`pieces
      modifies engine`held, engine.index`chunkLocations, engine.index`logEntries, engine.index`appended, engine.disk
      ensures engine.Valid() && Valid()
      ensures r == if engine.maxObjectSize != 0 && |old(Fed())| + |data| > engine.maxObjectSize then Err(TooLarge)
                   else Ok(())
      ensures Fed() == if r.Ok? then old(Fed()) + data else old(Fed())
      ensures engine.held == old(engine.held)[slot := multiset(chunks)]
      ensures old(chunks) <= chunks
      ensures Grew(old(engine.Stocked()), engine.Stocked(), chunks[|old(chunks)|..], engine.Synced(),
                   engine.index.manifests)
    {
      hide StorageEngine.Valid, Concat, Ids, AllUsed, FullChunks, Leftover, Grew, SafeSince;
      ghost var before, total := engine.Stocked(), Fed() + data;
      GrewNothing(before, engine.Synced(), engine.index.manifests);
      assert chunks[|chunks|..] == [];
      assert engine.held[slot := multiset(chunks)] == engine.held;
      if engine.maxObjectSize != 0 && totalSize + |buf| + |data| > engine.maxObjectSize {
        return Err(TooLarge);
      }
      var rest := data;
      while rest != []
        invariant engine.Valid() && Valid()
        invariant Fed() + rest == total
        invariant engine.held == old(engine.held)[slot := multiset(chunks)]
        invariant old(chunks) <= chunks
        invariant Grew(before, engine.Stocked(), chunks[|old(chunks)|..], engine.Synced(), engine.index.manifests)
        decreases |rest|
      {
        var space := engine.chunkSize - |buf|;
        var take := if space < |rest| then space else |rest|;
        Regroup(Fed(), rest, take);
        AbsorbPart(rest[..take], rest[take..], before, |old(chunks)|);
        rest := rest[take..];
      }
      assert total + [] == total;
      r := Ok(());
    }

    /** One turn of the write loop, as part of all the writes since `before`. */
    method AbsorbPart(x: Bytes, ghost later: Bytes, ghost before: Stock, ghost n: nat)
      requires engine.Valid() && Valid() && |buf| + |x| <= engine.chunkSize && n <= |chunks|
      requires AllUsed(engine.h, FullChunks((Fed() + x) + later, engine.chunkSize))
      requires Grew(before, engine.Stocked(), chunks[n..], engine.Synced(), engine.index.manifests)
      modifies this`hashed, this`totalSize, this`chunks, this`buf, this`referenced, this`pieces
      modifies engine`held, engine.index`chunkLocations, engine.index`logEntries, engine.index`appended, engine.disk
      ensures engine.Valid() && Valid()
      ensures Fed() == old(Fed()) + x
      ensures engine.held == old(engine.held)[slot := multiset(chunks)]
      ensures old(chunks) <= chunks
      ensures Grew(before, engine.Stocked(), chunks[n..], engine.Synced(), engine.index.manifests)
    {
      hide StorageEngine.Valid, Concat, Ids, AllUsed, FullChunks, Leftover, Grew;
      ghost var known, middle := chunks, engine.Stocked();
      PieceUsed(engine.h, Fed(), x, later, engine.chunkSize);
      Absorb(x);
      ghost var more, added := known[n..], chunks[|known|..];
      GrewThen(before, middle, engine.Stocked(), more, added, engine.Synced(), engine.index.manifests);
      assert chunks[n..] == more + added;
    }

    /** Flush the rest and commit the manifest. */
    method Finish(now: int) returns (manifest: Manifest)
      requires engine.Valid() && Valid()
      requires AllUsed(engine.h, Split(Fed(), engine.chunkSize))
      modifies this`hashed, this`totalSize, this`chunks, this`buf, this`referenced, this`pieces, this`open
      modifies engine`held, engine.index, engine.disk
      ensures engine.Valid() && !open
      ensures manifest == BuildManifest(engine.h, key, old(Fed()), engine.chunkSize, contentType, metadata, now)
      ensures manifest.key == key && manifest.contentType == contentType && manifest.metadata == metadata
      ensures manifest.createdAt == now && manifest.updatedAt == now && manifest.chunkSize == engine.chunkSize
      ensures manifest.totalSize == |old(Fed())| && manifest.checksum == engine.h.sha(old(Fed()))
      ensures engine.index.manifests == old(engine.index.manifests)[key := manifest]
      ensures engine.Objects() == old(engine.Objects())[key := old(Fed())]
      ensures engine.held == old(engine.held)[slot := multiset{}]
      ensures old(engine.disk.files.Keys) * engine.index.chunkLocations.Keys <= engine.disk.files.Keys
      ensures old(engine.disk.history) <= engine.disk.history
      ensures engine.index.durability == Sync ==>
                SafeSince(engine.disk.history, |old(engine.disk.history)|,
                          {old(engine.index.manifests), engine.index.manifests})
    {
      hide StorageEngine.Valid, ObjectsOf, Concat, Ids, AllUsed, FullChunks, Leftover, Split, SafeSince;
      hide WellFormed, ValidKey, Reclaim, DropRefs, Content;
      ghost var from, m := |engine.disk.history|, engine.index.manifests;
      BuiltHere(now);
      FlushRest();
      ghost var sofar, grown := engine.disk.history, engine.disk.files.Keys;
      var checksum := engine.h.sha(hashed);
      manifest := Manifest(key, chunks, totalSize, engine.chunkSize, contentType, checksum, metadata, now, now);
      ObjectsPut(engine.h, m, key, manifest);
      open := false;
      engine.Commit(slot, manifest);
      ReclaimKeeps(grown, Replaced(m, key), engine.index.chunkLocations);
      if engine.index.durability == Sync {
        ghost var both := {m, engine.index.manifests};
        LongerSince(sofar, engine.disk.history, from, {m}, both, both);
      }
    }

    /** The manifest this session would publish. */
    lemma BuiltHere(now: int)
      requires engine.Valid() && Valid() && AllUsed(engine.h, Split(Fed(), engine.chunkSize))
      ensures var m := BuildManifest(engine.h, key, Fed(), engine.chunkSize, contentType, metadata, now);
              WellFormed(engine.h, m) && Content(engine.h, m.chunks) == Fed() && ValidKey(m.key)
    {
      hide Recorded, Balanced, Backed, CrashSafe, Catalogue, ContentAddressed, Good, Render, Replay, WellKeyed;
      hide Concat, Ids, AllUsed, FullChunks, Leftover, Split, Content, WellFormed, ValidKey;
      BuiltWellFormed(engine.h, key, Fed(), engine.chunkSize, contentType, metadata, now);
    }

    /** The last, shorter chunk. */
    method FlushRest()
      requires engine.Valid() && Valid()
      requires AllUsed(engine.h, Split(Fed(), engine.chunkSize))
      modifies this`hashed, this`totalSize, this`chunks, this`buf, this`referenced, this`pieces
      modifies engine`held, engine.index`chunkLocations, engine.index`logEntries, engine.index`appended, engine.disk
      ensures engine.Valid() && Linked()
      ensures hashed == old(Fed()) && totalSize == |hashed|
      ensures chunks == Ids(engine.h, Split(old(Fed()), engine.chunkSize))
      ensures engine.held == old(engine.held)[slot := multiset(chunks)]
      ensures old(engine.disk.files.Keys) <= engine.disk.files.Keys
      ensures old(engine.disk.history) <= engine.disk.history
      ensures engine.index.durability == Sync ==>
                SafeSince(engine.disk.history, |old(engine.disk.history)|, {engine.index.manifests})
    {
      hide Recorded, Balanced, Backed, CrashSafe, Catalogue, ContentAddressed, Good, Render, Replay, WellKeyed;
      hide Concat, AddRef, Ids, AllUsed, FullChunks, Leftover, Grew, SafeSince, ValidKey;
      ghost var before, synced, m := engine.Stocked(), engine.Synced(), engine.index.manifests;
      TailUsed(engine.h, Fed(), engine.chunkSize);
      FlushChunk();
      GrewMeans(before, engine.Stocked(), chunks[|old(chunks)|..], synced, m);
      assert hashed + [] == hashed;
    }

    /** Give back every reference taken. */
    method Abort()
      requires engine.Valid() && Valid()
      modifies this`referenced, this`open
      modifies engine`held, engine.index`chunkLocations, engine.index`logEntries, engine.index`appended, engine.disk
      ensures engine.Valid() && !open
      ensures engine.held == old(engine.held)[slot := multiset{}]
      ensures engine.index.chunkLocations == DropRefs(old(engine.index.chunkLocations), chunks)
      ensures engine.disk.files.Keys ==
              Reclaim(old(engine.disk.files.Keys), chunks, engine.index.chunkLocations)
      ensures old(engine.disk.history) <= engine.disk.history
      ensures engine.index.durability == Sync ==>
                SafeSince(engine.disk.history, |old(engine.disk.history)|, {engine.index.manifests})
    {
      hide Recorded, Balanced, Backed, CrashSafe, Catalogue, ContentAddressed, Good, Render, Replay, WellKeyed;
      hide Reclaim, DropRefs, SafeSince;
      var taken := referenced;
      referenced := [];
      open := false;
      engine.ReleaseAll(engine.index.manifests, slot, taken);
    }

    /** One turn of the write loop: extend the buffer and flush it when full. */
    method Absorb(x: Bytes)
      requires engine.Valid() && Valid() && |buf| + |x| <= engine.chunkSize
      requires |buf| + |x| == engine.chunkSize ==> engine.h.used(buf + x)
      modifies this`hashed, this`totalSize, this`chunks, this`buf, this`referenced, this`pieces
      modifies engine`held, engine.index`chunkLocations, engine.index`logEntries, engine.index`appended, engine.disk
      ensures engine.Valid() && Valid()
      ensures Fed() == old(Fed()) + x
      ensures engine.held == old(engine.held)[slot := multiset(chunks)]
      ensures old(chunks) <= chunks
      ensures Grew(old(engine.Stocked()), engine.Stocked(), chunks[|old(chunks)|..], engine.Synced(),
                   engine.index.manifests)
    {
      hide Recorded, Balanced, Backed, CrashSafe, Catalogue, ContentAddressed, Good, Render, Replay, WellKeyed;
      hide Concat, AddRef, Ids, AllUsed, FullChunks, Leftover, Grew, SafeSince;
      FeedStep(Fed(), x, engine.chunkSize);
      GrewNothing(engine.Stocked(), engine.Synced(), engine.index.manifests);
      assert chunks[|chunks|..] == [];
      assert engine.held[slot := multiset(chunks)] == engine.held;
      assert hashed + (buf + x) == Fed() + x;
      buf := buf + x;
      if |buf| >= engine.chunkSize { FlushChunk(); }
    }
  }

  lemma Regroup(fed: Bytes, rest: Bytes, take: nat)
    requires take <= |rest|
    ensures (fed + rest[..take]) + rest[take..] == fed + rest
  {
    assert rest[..take] + rest[take..] == rest;
  }

  lemma TailUsed(h: Hashes, fed: Bytes, size: nat)
    requires size > 0 && AllUsed(h, Split(fed, size))
    ensures Leftover(fed, size) != [] ==> h.used(Leftover(fed, size))
    ensures Split(fed, size) == if Leftover(fed, size) == [] then FullChunks(fed, size)
                                else FullChunks(fed, size) + [Leftover(fed, size)]
  {
    var cs := Split(fed, size);
    if Leftover(fed, size) != [] { assert cs[|cs| - 1] == Leftover(fed, size); }
  }

  /** A buffer that fills up holds a chunk of the whole input. */
  lemma PieceUsed(h: Hashes, fed: Bytes, x: Bytes, rest: Bytes, size: nat)
    requires size > 0 && |Leftover(fed, size)| + |x| <= size
    requires AllUsed(h, FullChunks((fed + x) + rest, size))
    ensures |Leftover(fed, size)| + |x| == size ==> h.used(Leftover(fed, size) + x)
  {
    FeedStep(fed, x, size);
    FedPrefix(fed + x, rest, size);
    var all := FullChunks((fed + x) + rest, size);
    if |Leftover(fed, size)| + |x| == size {
      assert all[|FullChunks(fed, size)|] == Leftover(fed, size) + x;
    }
  }

  lemma TakeFirst(ids: seq<ChunkId>, i: nat)
    requires i < |ids|
    ensures ids[i] in multiset(ids[i..])
    ensures multiset(ids[i..]) - multiset{ids[i]} == multiset(ids[i + 1..])
  {
    assert ids[i..] == [ids[i]] + ids[i + 1..];
  }

  /** The chunks of the version a store under `key` replaces. */
  ghost function Replaced(m: Manifests, key: Key): seq<ChunkId> {
    if key in m then m[key].chunks else []
  }

  lemma CatalogueLess(h: Hashes, m: Manifests, k: Key)
    requires Catalogue(h, m)
    ensures Catalogue(h, m - {k})
  {
  }

  lemma CatalogueMore(h: Hashes, m: Manifests, x: Manifest)
    requires Catalogue(h, m) && ValidKey(x.key) && WellFormed(h, x)
    ensures Catalogue(h, m[x.key := x])
  {
  }

  lemma CatalogueMove(h: Hashes, m: Manifests, from: Key, x: Manifest)
    requires Catalogue(h, m) && from in m && ValidKey(x.key)
    requires x == m[from].(key := x.key, updatedAt := x.updatedAt)
    ensures Catalogue(h, m[x.key := x] - {from})
  {
  }

  lemma SeenAt(ids: seq<ChunkId>, n: nat)
    requires n <= |ids| && StrictlySorted(ids)
    ensures n == 0 ==> Elements(ids[..n]) == {}
    ensures n > 0 ==>
              Elements(ids[..n]) == Elements(ids[..n - 1]) + {ids[n - 1]} && ids[n - 1] !in Elements(ids[..n - 1])
  {
    if n > 0 {
      LessIrreflexive(ids[n - 1]);
      assert ids[..n] == ids[..n - 1] + [ids[n - 1]];
    }
  }

  /** Of the files seen, those `gc` removes and those it leaves for later. */
  ghost function Gone(seen: set<ChunkId>, tracked: set<ChunkId>, recent: set<ChunkId>): set<ChunkId> {
    seen - tracked - recent
  }

  ghost function Left(seen: set<ChunkId>, tracked: set<ChunkId>, recent: set<ChunkId>): set<ChunkId> {
    (seen - tracked) * recent
  }

  /** The state of the sweep after the first `i` files. */
  ghost predicate SweptTo(files: set<ChunkId>, now: set<ChunkId>, ids: seq<ChunkId>, i: nat, tracked: set<ChunkId>,
                          recent: set<ChunkId>, removed: nat, skipped: nat) {
    i <= |ids| &&
    var seen := Elements(ids[..i]);
    && now == files - Gone(seen, tracked, recent)
    && removed == |Gone(seen, tracked, recent)| && skipped == |Left(seen, tracked, recent)|
  }

  lemma SweepStep(files: set<ChunkId>, now: set<ChunkId>, ids: seq<ChunkId>, i: nat, tracked: set<ChunkId>,
                  recent: set<ChunkId>, removed: nat, skipped: nat)
    requires StrictlySorted(ids) && i < |ids| && SweptTo(files, now, ids, i, tracked, recent, removed, skipped)
    ensures var id := ids[i];
            if id in tracked then SweptTo(files, now, ids, i + 1, tracked, recent, removed, skipped)
            else if id in recent then SweptTo(files, now, ids, i + 1, tracked, recent, removed, skipped + 1)
            else SweptTo(files, now - {id}, ids, i + 1, tracked, recent, removed + 1, skipped)
  {
    hide Gone, Left, StrictlySorted, Elements;
    SeenAt(ids, i + 1);
    GoneStep(Elements(ids[..i]), ids[i], tracked, recent);
    LeftStep(Elements(ids[..i]), ids[i], tracked, recent);
  }

  lemma GoneStep(seen: set<ChunkId>, id: ChunkId, tracked: set<ChunkId>, recent: set<ChunkId>)
    requires id !in seen
    ensures Gone(seen + {id}, tracked, recent) ==
            Gone(seen, tracked, recent) + (if id !in tracked && id !in recent then {id} else {})
    ensures id !in Gone(seen, tracked, recent)
  {
  }

  lemma LeftStep(seen: set<ChunkId>, id: ChunkId, tracked: set<ChunkId>, recent: set<ChunkId>)
    requires id !in seen
    ensures Left(seen + {id}, tracked, recent) ==
            Left(seen, tracked, recent) + (if id !in tracked && id in recent then {id} else {})
    ensures id !in Left(seen, tracked, recent)
  {
  }

  lemma SweepEnds(files: set<ChunkId>, now: set<ChunkId>, ids: seq<ChunkId>, tracked: set<ChunkId>,
                  recent: set<ChunkId>, removed: nat, skipped: nat)
    requires Elements(ids) == files
    ensures SweptTo(files, files, ids, 0, tracked, recent, 0, 0)
    ensures SweptTo(files, now, ids, |ids|, tracked, recent, removed, skipped) ==>
      && now == files - Gone(files, tracked, recent)
      && removed == |Gone(files, tracked, recent)| && skipped == |Left(files, tracked, recent)|
  {
    assert ids[..|ids|] == ids;
    assert Elements(ids[..0]) == {};
    assert Gone({}, tracked, recent) == {} && Left({}, tracked, recent) == {};
  }

  lemma SurvivingFiles(files: set<ChunkId>, tracked: set<ChunkId>, recent: set<ChunkId>)
    ensures files - Gone(files, tracked, recent) == files * (tracked + recent)
  {
  }

  lemma OrphanUnneeded(m: Manifests, held: seq<multiset<ChunkId>>, tracked: set<ChunkId>, files: set<ChunkId>,
                       id: ChunkId)
    requires forall x :: Needed(m, held, x) ==> x in tracked && x in files
    requires id !in tracked
    ensures Backed(m, held, files - {id})
  {
  }
}
