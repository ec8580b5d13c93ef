/** The file-backed index (index.rs): two in-memory maps, rebuilt from and
    mirrored by an append-only log that is compacted as it grows. */
module Index {
  import opened Bytes
  import opened Types
  import opened LogText
  import opened IndexModel
  import opened Disk

  const COMPACTION_FLOOR := 1024
  const COMPACTION_RATIO := 2

  /** A disk state passed while one log entry is appended and the log is then
      possibly synced and compacted: either only the entry was added, or the
      whole log is synced and stands for `state`. */
  ghost predicate AppendStep(d: Snapshot, before: Snapshot, e: LogEntry, state: IndexState) {
    && d.files == before.files
    && ((d.entries == before.entries + [e] && d.synced == before.synced)
        || (d.synced == |d.entries| && Replay(d.entries) == state))
  }

  class Index {
    const disk: Disk
    const durability: Durability
    var manifests: Manifests
    var chunkLocations: Locations
    var logEntries: nat
    // Bookkeeping for the cost of compaction.
    ghost var appended: nat
    ghost var rewritten: nat

    ghost function State(): IndexState
      reads this
    {
      IndexState(manifests, chunkLocations)
    }

    /** Log and memory agree. */
    ghost predicate Valid()
      reads this, disk
    {
      && disk.Intact()
      && Replay(disk.entries) == State()
      && logEntries == |disk.entries|
      && WellKeyed(manifests)
    }

    /** What compaction has written and what the log holds, beyond the entries
        appended. No operation ever raises it. */
    ghost function Unpaid(): int
      reads this
    {
      rewritten + logEntries - appended
    }

    function Live(): nat
      reads this
    {
      |manifests| + |chunkLocations|
    }

    /** The log is shorter than the floor, or than twice what is live. */
    ghost predicate Short()
      reads this
    {
      logEntries < COMPACTION_FLOOR || logEntries < COMPACTION_RATIO * Live()
    }

    constructor FromState(disk: Disk, durability: Durability, s: IndexState, count: nat)
      ensures this.disk == disk && this.durability == durability
      ensures State() == s && logEntries == count && appended == 0 && rewritten == 0
    {
      this.disk := disk;
      this.durability := durability;
      manifests := s.manifests;
      chunkLocations := s.locations;
      logEntries := count;
      appended := 0;
      rewritten := 0;
    }

    /** Replay the log line by line up to the first bad line, then cut it off. */
    static method Open(disk: Disk, durability: Durability) returns (r: Result<Index>)
      requires disk.Readable()
      modifies disk`log, disk`synced
      ensures r.Err? <==> Parse(disk.codec, old(disk.log)).Err?
      ensures r.Err? ==> disk.log == old(disk.log) && disk.synced == old(disk.synced)
      ensures r.Ok? ==>
        && fresh(r.value) && r.value.disk == disk && r.value.durability == durability
        && r.value.State() == Replay(disk.entries) && r.value.logEntries == |disk.entries|
        && r.value.appended == 0 && r.value.rewritten == 0 && WellKeyed(r.value.manifests)
        && disk.log == Recovered(old(disk.log), Parse(disk.codec, old(disk.log)).value)
        && old(disk.synced) <= disk.synced <= |disk.entries|
        && (r.value.Valid() <==> disk.log == Render(disk.codec, disk.entries))
    {
      var replayed := ReplayLines(disk.codec, disk.log);
      if replayed.Err? { return Err(Io); }
      var pass := replayed.value;
      GoodLenInFile(disk.codec, disk.log);
      if pass.truncated { disk.Truncate(pass.goodLen); }
      ReplayWellKeyed(disk.entries);
      var index := new Index.FromState(disk, durability, pass.state, pass.count);
      r := Ok(index);
    }

    method AppendEntry(e: LogEntry, sync: bool)
      requires disk.Intact() && logEntries == |disk.entries|
      modifies this`logEntries, this`appended, disk`log, disk`entries, disk`synced, disk`history
      ensures disk.Intact() && disk.entries == old(disk.entries) + [e] && logEntries == |disk.entries|
      ensures disk.synced == if sync && durability == Sync then |disk.entries| else old(disk.synced)
      ensures appended == old(appended) + 1
      ensures old(disk.history) < disk.history
      ensures !sync ==> disk.history == old(disk.history) + [disk.Now()]
      ensures forall i :: |old(disk.history)| <= i < |disk.history| ==>
                disk.history[i].files == disk.files && disk.history[i].entries == disk.entries
                && disk.history[i].synced in {old(disk.synced), |disk.entries|}
    {
      disk.AppendLine(e);
      if sync && durability == Sync { disk.SyncLog(); }
      logEntries := logEntries + 1;
      appended := appended + 1;
    }

    method GetManifest(key: Key) returns (m: Option<Manifest>)
      ensures m == if key in manifests then Some(manifests[key]) else None
    {
      m := if key in manifests then Some(manifests[key]) else None;
    }

    /** Rewrite the log with the live entries only. */
    method Compact()
      requires Valid()
      modifies this`logEntries, this`rewritten, disk`log, disk`entries, disk`synced, disk`history
      ensures Valid() && logEntries == Live() == |disk.entries|
      ensures disk.synced == |disk.entries|
      ensures disk.history == old(disk.history) + [disk.Now()]
      ensures rewritten == old(rewritten) + Live()
    {
      hide Render, Replay, Good, WellKeyed, SortedKeys, ManifestEntries, LocationEntries;
      var ks, ids := SortedKeys(manifests.Keys), SortedKeys(chunkLocations.Keys);
      InElements(ks, manifests.Keys);
      InElements(ids, chunkLocations.Keys);
      var tmp, written := WriteManifests(disk.codec, manifests, ks);
      var more, writtenMore := WriteLocations(disk.codec, chunkLocations, ids);
      ghost var es := ManifestEntries(manifests, ks) + LocationEntries(chunkLocations, ids);
      RenderAppend(disk.codec, ManifestEntries(manifests, ks), LocationEntries(chunkLocations, ids));
      tmp := tmp + more;
      written := written + writtenMore;
      assert es == LiveEntries(State());
      ReplayLive(State());
      disk.ReplaceLog(tmp, es);
      logEntries := written;
      rewritten := rewritten + written;
    }

    /** Compact when the log is long and at most half of it is live. */
    method MaybeCompact()
      requires Valid()
      modifies this`logEntries, this`rewritten, disk`log, disk`entries, disk`synced, disk`history
      ensures Valid()
      ensures Short()
      ensures logEntries < 1024 || logEntries < 2 * (|manifests| + |chunkLocations|)
      ensures var live := |manifests| + |chunkLocations|;
              logEntries == if old(logEntries) < 1024 || old(logEntries) < 2 * live then old(logEntries) else live
      ensures old(logEntries) < 1024 || old(logEntries) < 2 * (|manifests| + |chunkLocations|) ==>
                disk.history == old(disk.history) && disk.Now() == old(disk.Now())
      ensures Unpaid() <= old(Unpaid())
      ensures (disk.history == old(disk.history) && disk.Now() == old(disk.Now()))
           || (disk.history == old(disk.history) + [disk.Now()] && disk.synced == |disk.entries|)
      ensures old(disk.synced) == |old(disk.entries)| ==> disk.synced == |disk.entries|
    {
      if logEntries < COMPACTION_FLOOR { return; }
      if logEntries < Live() * COMPACTION_RATIO { return; }
      Compact();
    }

    method PutManifest(m: Manifest)
      requires Valid()
      modifies this`manifests, this`logEntries, this`appended, this`rewritten
      modifies disk`log, disk`entries, disk`synced, disk`history
      ensures Valid() && manifests == old(manifests)[m.key := m]
      ensures durability == Sync ==> disk.synced == |disk.entries|
      ensures old(disk.history) < disk.history
      ensures forall i :: |old(disk.history)| <= i < |disk.history| ==> disk.history[i].files == disk.files
      ensures AppendStep(disk.Now(), old(disk.Now()), LogEntry.PutManifest(m), State())
      ensures forall i :: |old(disk.history)| <= i < |disk.history| ==>
                AppendStep(disk.history[i], old(disk.Now()), LogEntry.PutManifest(m), State())
      ensures Unpaid() <= old(Unpaid()) && appended == old(appended) + 1
      ensures Short()
    {
      hide Good, Render, Replay;
      ReplaySnoc(disk.entries, LogEntry.PutManifest(m));
      AppendEntry(LogEntry.PutManifest(m), true);
      manifests := manifests[m.key := m];
      MaybeCompact();
    }

    method DeleteManifest(key: Key)
      requires Valid()
      modifies this`manifests, this`logEntries, this`appended, this`rewritten
      modifies disk`log, disk`entries, disk`synced, disk`history
      ensures Valid() && manifests == old(manifests) - {key}
      ensures durability == Sync ==> disk.synced == |disk.entries|
      ensures old(disk.history) < disk.history
      ensures forall i :: |old(disk.history)| <= i < |disk.history| ==> disk.history[i].files == disk.files
      ensures AppendStep(disk.Now(), old(disk.Now()), LogEntry.DeleteManifest(key), State())
      ensures forall i :: |old(disk.history)| <= i < |disk.history| ==>
                AppendStep(disk.history[i], old(disk.Now()), LogEntry.DeleteManifest(key), State())
      ensures Unpaid() <= old(Unpaid()) && appended == old(appended) + 1
      ensures Short()
    {
      hide Good, Render, Replay;
      ReplaySnoc(disk.entries, LogEntry.DeleteManifest(key));
      AppendEntry(LogEntry.DeleteManifest(key), true);
      manifests := manifests - {key};
      MaybeCompact();
    }

    method PutChunkLocation(id: ChunkId, location: ChunkLocation)
      requires Valid()
      modifies this`chunkLocations, this`logEntries, this`appended, disk`log, disk`entries, disk`synced, disk`history
      ensures Valid() && chunkLocations == old(chunkLocations)[id := location]
      ensures disk.entries == old(disk.entries) + [LogEntry.PutChunkLocation(id, location)]
      ensures disk.synced == old(disk.synced)
      ensures disk.history == old(disk.history) + [disk.Now()]
      ensures Unpaid() <= old(Unpaid()) && appended == old(appended) + 1
    {
      ReplaySnoc(disk.entries, LogEntry.PutChunkLocation(id, location));
      AppendEntry(LogEntry.PutChunkLocation(id, location), false);
      chunkLocations := chunkLocations[id := location];
    }

    method DeleteChunkLocation(id: ChunkId)
      requires Valid()
      modifies this`chunkLocations, this`logEntries, this`appended, disk`log, disk`entries, disk`synced, disk`history
      ensures Valid() && chunkLocations == old(chunkLocations) - {id}
      ensures disk.entries == old(disk.entries) + [LogEntry.DeleteChunkLocation(id)]
      ensures disk.synced == old(disk.synced)
      ensures disk.history == old(disk.history) + [disk.Now()]
      ensures Unpaid() <= old(Unpaid()) && appended == old(appended) + 1
    {
      ReplaySnoc(disk.entries, LogEntry.DeleteChunkLocation(id));
      AppendEntry(LogEntry.DeleteChunkLocation(id), false);
      chunkLocations := chunkLocations - {id};
    }

    method AddChunkRef(id: ChunkId, path: Bytes)
      requires Valid()
      modifies this`chunkLocations, this`logEntries, this`appended, disk`log, disk`entries, disk`synced, disk`history
      ensures Valid() && chunkLocations == AddRef(old(chunkLocations), id, path)
      ensures disk.synced == old(disk.synced) && |disk.entries| == |old(disk.entries)| + 1
      ensures disk.entries[..|old(disk.entries)|] == old(disk.entries)
      ensures disk.history == old(disk.history) + [disk.Now()]
      ensures Unpaid() <= old(Unpaid()) && appended == old(appended) + 1
    {
      var updated :=
        if id in chunkLocations then chunkLocations[id].(refCount := chunkLocations[id].refCount + 1)
        else ChunkLocation(path, 1);
      PutChunkLocation(id, updated);
    }

    /** Drop one reference; true when it was the last one. */
    method DecrementChunkRef(id: ChunkId) returns (last: bool)
      requires Valid()
      modifies this`chunkLocations, this`logEntries, this`appended, disk`log, disk`entries, disk`synced, disk`history
      ensures Valid() && chunkLocations == DropRef(old(chunkLocations), id)
      ensures last == (id in old(chunkLocations) && id !in chunkLocations)
      ensures disk.synced == old(disk.synced)
      ensures id !in old(chunkLocations) ==> disk.entries == old(disk.entries) && disk.history == old(disk.history)
      ensures id in old(chunkLocations) ==>
                |disk.entries| == |old(disk.entries)| + 1
                && disk.entries[..|old(disk.entries)|] == old(disk.entries)
                && disk.history == old(disk.history) + [disk.Now()]
      ensures Unpaid() <= old(Unpaid()) && old(appended) <= appended <= old(appended) + 1
    {
      last := false;
      if id in chunkLocations {
        var loc := chunkLocations[id];
        if loc.refCount <= 1 {
          DeleteChunkLocation(id);
          return true;
        }
        PutChunkLocation(id, loc.(refCount := loc.refCount - 1));
      }
    }

    /** One page of the manifests under a prefix, in key order. */
    method ListManifests(prefix: Bytes, limit: nat, cursor: Bytes)
      returns (results: seq<Manifest>, next: Option<Key>)
      requires WellKeyed(manifests)
      ensures forall i :: 0 <= i < |results| ==> results[i].key in manifests && manifests[results[i].key] == results[i]
      ensures KeysOf(results) == PageKeys(manifests.Keys, prefix, limit, cursor)
      ensures next == NextCursor(KeysOf(results), limit)
      ensures IsPage(manifests.Keys, prefix, limit, cursor, KeysOf(results), next)
    {
      results, next := ListFrom(manifests, prefix, limit, cursor);
      PageMeans(manifests.Keys, prefix, limit, cursor);
    }
  }

  // ---- whole runs ----

  datatype Call = Put(m: Manifest) | Remove(key: Key) | Take(id: ChunkId, path: Bytes) | Give(id: ChunkId)

  /** What a call means for the two maps. */
  ghost function Meaning(s: IndexState, call: Call): IndexState {
    match call
    case Put(m) => s.(manifests := s.manifests[m.key := m])
    case Remove(key) => s.(manifests := s.manifests - {key})
    case Take(id, path) => s.(locations := AddRef(s.locations, id, path))
    case Give(id) => s.(locations := DropRef(s.locations, id))
  }

  ghost function MeaningOfAll(s: IndexState, calls: seq<Call>): IndexState {
    if calls == [] then s else Meaning(MeaningOfAll(s, calls[..|calls| - 1]), calls[|calls| - 1])
  }

  /** Any run of index operations, with automatic compactions wherever they fall:
      the log replays to the maps, which are as if nothing was ever compacted;
      all entries written by compaction, plus the log as it is, come to at most
      the initial log plus the entries appended, which are at most one a call; and
      the log is short after every manifest operation. */
  method Drive(index: Index, calls: seq<Call>)
    requires index.Valid()
    modifies index, index.disk
    ensures index.Valid() && index.State() == MeaningOfAll(old(index.State()), calls)
    ensures index.Unpaid() <= old(index.Unpaid())
    ensures old(index.appended) <= index.appended <= old(index.appended) + |calls|
    ensures calls != [] && (calls[|calls| - 1].Put? || calls[|calls| - 1].Remove?) ==> index.Short()
  {
    hide Meaning, AddRef, DropRef, WellKeyed, Good, Render, Replay, AppendStep;
    ghost var start := index.State();
    for i := 0 to |calls|
      invariant index.Valid() && index.State() == MeaningOfAll(start, calls[..i])
      invariant index.Unpaid() <= old(index.Unpaid())
      invariant old(index.appended) <= index.appended <= old(index.appended) + i
      invariant i > 0 && (calls[i - 1].Put? || calls[i - 1].Remove?) ==> index.Short()
    {
      assert calls[..i + 1][..i] == calls[..i];
      Perform(index, calls[i]);
    }
    assert calls[..|calls|] == calls;
  }

  method Perform(index: Index, call: Call)
    requires index.Valid()
    modifies index, index.disk
    ensures index.Valid() && index.State() == Meaning(old(index.State()), call)
    ensures index.Unpaid() <= old(index.Unpaid())
    ensures old(index.appended) <= index.appended <= old(index.appended) + 1
    ensures call.Put? || call.Remove? ==> index.Short()
  {
    hide AddRef, DropRef, WellKeyed, Good, Render, Replay, AppendStep;
    match call {
      case Put(m) => index.PutManifest(m);
      case Remove(key) => index.DeleteManifest(key);
      case Take(id, path) => index.AddChunkRef(id, path);
      case Give(id) => var _ := index.DecrementChunkRef(id);
    }
  }

  /** What the replay loop of `open_with` leaves behind. */
  datatype Pass = Pass(state: IndexState, count: nat, goodLen: nat, truncated: bool)

  ghost function PassOf(r: Result<Scan<LogEntry>>): Result<Pass> {
    match r
    case Err(x) => Err(x)
    case Ok(s) => Ok(Pass(Replay(s.entries), |s.entries|, s.goodLen, s.truncated))
  }

  /** One pass over the rest of the log, starting from what was read so far. */
  function ReadOn(codec: Codec<LogEntry>, p: Pass, rest: Bytes): Result<Pass>
    decreases |rest|
  {
    if rest == [] then Ok(p)
    else if !codec.utf8(RawLine(rest)) then Err(Io)
    else if FirstLine(rest) == [] then ReadOn(codec, p.(goodLen := p.goodLen + 1), AfterLine(rest))
    else match codec.dec(FirstLine(rest))
      case None => Ok(p.(truncated := true))
      case Some(e) =>
        ReadOn(codec, Pass(Apply(p.state, e), p.count + 1, p.goodLen + |FirstLine(rest)| + 1, false), AfterLine(rest))
  }

  lemma {:induction false} ReadOnParses(codec: Codec<LogEntry>, es: seq<LogEntry>, len: nat, rest: Bytes)
    ensures ReadOn(codec, Pass(Replay(es), |es|, len, false), rest) == PassOf(Prepend(es, len, Parse(codec, rest)))
    decreases |rest|
  {
    hide Apply, Replay, Parse, Prepend, LineLength, RawLine, FirstLine, AfterLine, Strip;
    if rest == [] {
      ParseEnd(codec, es, len);
    } else {
      ParseStep(codec, es, len, rest);
      var line := FirstLine(rest);
      if codec.utf8(RawLine(rest)) {
        if line == [] {
          ReadOnParses(codec, es, len + 1, AfterLine(rest));
        } else if codec.dec(line).Some? {
          var e := codec.dec(line).value;
          ReplaySnoc(es, e);
          ReadOnParses(codec, es + [e], len + |line| + 1, AfterLine(rest));
        }
      }
    }
  }

  method ReplayLines(codec: Codec<LogEntry>, log: Bytes) returns (r: Result<Pass>)
    ensures r == PassOf(Parse(codec, log))
  {
    hide Apply, LineLength, RawLine, FirstLine, AfterLine;
    var rest := log;
    var state := EMPTY;
    var count: nat, goodLen: nat := 0, 0;
    ReadOnParses(codec, [], 0, log);
    PrependNothing(Parse(codec, log));
    ghost var whole := PassOf(Parse(codec, log));
    while rest != []
      invariant whole == ReadOn(codec, Pass(state, count, goodLen, false), rest)
      decreases |rest|
    {
      var raw, line := RawLine(rest), FirstLine(rest);
      rest := AfterLine(rest);
      if !codec.utf8(raw) { return Err(Io); }
      if line == [] {
        goodLen := goodLen + 1;
        continue;
      }
      match codec.dec(line) {
        case None => return Ok(Pass(state, count, goodLen, true));
        case Some(e) =>
          state := Apply(state, e);
          count := count + 1;
          goodLen := goodLen + |line| + 1;
      }
    }
    return Ok(Pass(state, count, goodLen, false));
  }

  method ListFrom(m: Manifests, prefix: Bytes, limit: nat, cursor: Bytes)
    returns (results: seq<Manifest>, next: Option<Key>)
    requires WellKeyed(m)
    ensures forall i :: 0 <= i < |results| ==> results[i].key in m && m[results[i].key] == results[i]
    ensures KeysOf(results) == PageKeys(m.Keys, prefix, limit, cursor)
    ensures next == NextCursor(KeysOf(results), limit)
  {
    var start := if cursor == [] then prefix else cursor;
    var ks := SortedKeys(m.Keys);
    InElements(ks, m.Keys);
    var i := 0;
    while i < |ks| && Less(ks[i], start)
      invariant i <= |ks|
      invariant forall j :: 0 <= j < i ==> Less(ks[j], start)
    {
      i := i + 1;
    }
    NothingBeforeStart(ks, i, prefix, cursor);
    AllAfterStart(ks, i, start);
    ghost var found, stop;
    results, next, found, stop := CollectPage(m, ks, i, prefix, limit, cursor);
    PageComplete(m.Keys, ks, stop, found, prefix, limit, cursor);
    KeysOfLookup(m, found);
  }

  /** The body of the range scan, from the first key at or after the start. */
  method CollectPage(m: Manifests, ks: seq<Key>, from: nat, prefix: Bytes, limit: nat, cursor: Bytes)
    returns (results: seq<Manifest>, next: Option<Key>, ghost found: seq<Key>, ghost stop: nat)
    requires StrictlySorted(ks) && forall k :: k in ks ==> k in m
    requires from <= |ks| && Collected(ks, from, [], prefix, cursor)
    requires forall j :: from <= j < |ks| ==> cursor == [] || !Less(ks[j], cursor)
    ensures from <= stop <= |ks| && Collected(ks, stop, found, prefix, cursor)
    ensures forall j :: from <= j < stop ==> HasPrefix(ks[j], prefix)
    ensures |found| <= AtLeastOne(limit)
    ensures |found| < AtLeastOne(limit) && stop < |ks| ==> !HasPrefix(ks[stop], prefix)
    ensures (forall k :: k in found ==> k in m) && results == Lookup(m, found)
    ensures next == NextCursor(found, limit)
  {
    results, next, found := [], None, [];
    var i := from;
    while i < |ks|
      invariant from <= i <= |ks| && |found| < AtLeastOne(limit) && next == None
      invariant (forall k :: k in found ==> k in m) && results == Lookup(m, found)
      invariant Collected(ks, i, found, prefix, cursor)
      invariant forall j :: from <= j < i ==> HasPrefix(ks[j], prefix)
    {
      var key := ks[i];
      if prefix != [] && !HasPrefix(key, prefix) {
        break;
      }
      i := i + 1;
      if cursor != [] && key == cursor {
        CollectNothing(ks, i - 1, found, prefix, cursor);
        continue;
      }
      CollectNext(ks, i - 1, found, prefix, cursor);
      LookupSnoc(m, found, key);
      results := results + [m[key]];
      found := found + [key];
      if |results| >= limit {
        next := Some(key);
        break;
      }
    }
    stop := i;
  }

  function KeysOf(ms: seq<Manifest>): (ks: seq<Key>)
    ensures |ks| == |ms|
  {
    seq(|ms|, i requires 0 <= i < |ms| => ms[i].key)
  }

  ghost function Lookup(m: Manifests, ks: seq<Key>): (ms: seq<Manifest>)
    requires forall k :: k in ks ==> k in m
    ensures |ms| == |ks|
  {
    seq(|ks|, i requires 0 <= i < |ks| => m[ks[i]])
  }

  lemma LookupSnoc(m: Manifests, ks: seq<Key>, k: Key)
    requires k in m && forall x :: x in ks ==> x in m
    ensures forall x :: x in ks + [k] ==> x in m
    ensures Lookup(m, ks + [k]) == Lookup(m, ks) + [m[k]]
  {
  }

  lemma KeysOfLookup(m: Manifests, ks: seq<Key>)
    requires WellKeyed(m) && forall k :: k in ks ==> k in m
    ensures KeysOf(Lookup(m, ks)) == ks
    ensures forall i :: 0 <= i < |ks| ==> m[ks[i]] == Lookup(m, ks)[i]
  {
  }

  /** The manifest lines of a compacted log. */
  method WriteManifests(codec: Codec<LogEntry>, m: Manifests, ks: seq<Key>) returns (tmp: Bytes, written: nat)
    requires forall k :: k in ks ==> k in m
    ensures tmp == Render(codec, ManifestEntries(m, ks)) && written == |ks|
  {
    tmp, written := [], 0;
    for i := 0 to |ks|
      invariant written == i && tmp == Render(codec, ManifestEntries(m, ks[..i]))
    {
      var e := LogEntry.PutManifest(m[ks[i]]);
      assert ks[..i + 1][..i] == ks[..i];
      RenderSnoc(codec, ManifestEntries(m, ks[..i]), e);
      tmp := tmp + (codec.enc(e) + [NEWLINE]);
      written := written + 1;
    }
    assert ks[..|ks|] == ks;
  }

  method WriteLocations(codec: Codec<LogEntry>, l: Locations, ids: seq<ChunkId>) returns (tmp: Bytes, written: nat)
    requires forall id :: id in ids ==> id in l
    ensures tmp == Render(codec, LocationEntries(l, ids)) && written == |ids|
  {
    tmp, written := [], 0;
    for i := 0 to |ids|
      invariant written == i && tmp == Render(codec, LocationEntries(l, ids[..i]))
    {
      var e := LogEntry.PutChunkLocation(ids[i], l[ids[i]]);
      assert ids[..i + 1][..i] == ids[..i];
      RenderSnoc(codec, LocationEntries(l, ids[..i]), e);
      tmp := tmp + (codec.enc(e) + [NEWLINE]);
      written := written + 1;
    }
    assert ids[..|ids|] == ids;
  }

  /** `found` holds, in order, the listed keys among the first `i`. */
  ghost predicate Collected(ks: seq<Key>, i: nat, found: seq<Key>, prefix: Bytes, cursor: Bytes)
    requires i <= |ks|
  {
    && StrictlySorted(found)
    && forall k :: k in found <==> k in ks[..i] && HasPrefix(k, prefix) && (cursor == [] || Less(cursor, k))
  }

  lemma NothingBeforeStart(ks: seq<Key>, i: nat, prefix: Bytes, cursor: Bytes)
    requires i <= |ks|
    requires forall j :: 0 <= j < i ==> Less(ks[j], if cursor == [] then prefix else cursor)
    ensures Collected(ks, i, [], prefix, cursor)
  {
    forall k | k in ks[..i] && HasPrefix(k, prefix) && (cursor == [] || Less(cursor, k)) ensures false {
      PrefixFirst(prefix, k);
      LessAsymmetric(prefix, k);
      LessAsymmetric(cursor, k);
      LessIrreflexive(k);
    }
  }

  lemma AllAfterStart(ks: seq<Key>, i: nat, start: Bytes)
    requires StrictlySorted(ks) && i <= |ks| && (i < |ks| ==> !Less(ks[i], start))
    ensures forall j :: i <= j < |ks| ==> !Less(ks[j], start)
  {
    forall j | i <= j < |ks| ensures !Less(ks[j], start) {
      if i < j && Less(ks[j], start) { LessTransitive(ks[i], ks[j], start); }
    }
  }

  lemma CollectNothing(ks: seq<Key>, i: nat, found: seq<Key>, prefix: Bytes, cursor: Bytes)
    requires i < |ks| && Collected(ks, i, found, prefix, cursor)
    requires cursor != [] && ks[i] == cursor
    ensures Collected(ks, i + 1, found, prefix, cursor)
  {
    LessIrreflexive(cursor);
    assert ks[..i + 1] == ks[..i] + [cursor];
  }

  lemma CollectNext(ks: seq<Key>, i: nat, found: seq<Key>, prefix: Bytes, cursor: Bytes)
    requires StrictlySorted(ks) && i < |ks| && Collected(ks, i, found, prefix, cursor)
    requires HasPrefix(ks[i], prefix) && (cursor != [] ==> !Less(ks[i], cursor) && ks[i] != cursor)
    ensures Collected(ks, i + 1, found + [ks[i]], prefix, cursor)
  {
    var key := ks[i];
    LessTotal(key, cursor);
    forall j | 0 <= j < |found| ensures Less(found[j], key) {
      assert found[j] in found;
      var p :| 0 <= p < i && ks[..i][p] == found[j];
    }
    assert ks[..i + 1] == ks[..i] + [key];
  }

  /** The scan may stop after `i` keys: it ran out, met a key outside the
      prefix, or filled the page. */
  ghost predicate Stopped(ks: seq<Key>, i: nat, found: seq<Key>, prefix: Bytes, limit: nat, cursor: Bytes) {
    var start := if cursor == [] then prefix else cursor;
    && i <= |ks| && |found| <= AtLeastOne(limit)
    && (forall j :: 0 <= j < i ==> Less(ks[j], start) || HasPrefix(ks[j], prefix))
    && (|found| < AtLeastOne(limit) && i < |ks| ==> !Less(ks[i], start) && !HasPrefix(ks[i], prefix))
  }

  lemma PageComplete(keys: set<Key>, ks: seq<Key>, i: nat, found: seq<Key>, prefix: Bytes, limit: nat, cursor: Bytes)
    requires StrictlySorted(ks) && forall k :: k in ks <==> k in keys
    requires Stopped(ks, i, found, prefix, limit, cursor)
    requires Collected(ks, i, found, prefix, cursor)
    ensures found == PageKeys(keys, prefix, limit, cursor)
  {
    if Blocked(keys, prefix, cursor) {
      NothingBeyondBlock(keys, ks, i, found, prefix, cursor);
    } else {
      var s := Remaining(keys, prefix, cursor);
      forall x, y | x in found && y in s && y !in found ensures Less(x, y) {
        OrderAcross(ks, i, x, y);
      }
      InitialSegment(found, s);
      if |found| < AtLeastOne(limit) {
        NothingLeft(keys, ks, i, found, prefix, limit, cursor);
        assert s - Elements(found) == {};
        assert found + [] == found;
      }
    }
  }

  lemma OrderAcross(ks: seq<Key>, i: nat, x: Key, y: Key)
    requires StrictlySorted(ks) && i <= |ks| && x in ks[..i] && y in ks && y !in ks[..i]
    ensures Less(x, y)
  {
    var p :| 0 <= p < i && ks[..i][p] == x;
    var q :| 0 <= q < |ks| && ks[q] == y;
    assert forall j :: 0 <= j < i ==> ks[j] in ks[..i];
  }

  lemma NothingBeyondBlock(keys: set<Key>, ks: seq<Key>, i: nat, found: seq<Key>, prefix: Bytes, cursor: Bytes)
    requires StrictlySorted(ks) && forall k :: k in ks <==> k in keys
    requires i <= |ks| && Collected(ks, i, found, prefix, cursor)
    requires forall j :: 0 <= j < i ==> Less(ks[j], cursor) || HasPrefix(ks[j], prefix)
    requires Blocked(keys, prefix, cursor)
    ensures found == []
  {
    if found != [] {
      var x := found[0];
      assert x in found;
      var k :| k in keys && Leq(cursor, k) && Less(k, prefix);
      // k lies before x in key order, so it was scanned, but it has not the prefix.
      PrefixFirst(prefix, x);
      if prefix != x { LessTransitive(k, prefix, x); }
      if k !in ks[..i] {
        OrderAcross(ks, i, x, k);
        LessAsymmetric(k, x);
      }
      var p :| 0 <= p < i && ks[..i][p] == k;
      LessAsymmetric(k, cursor);
      LessIrreflexive(cursor);
      PrefixFirst(prefix, k);
      LessAsymmetric(k, prefix);
      LessIrreflexive(prefix);
      assert false;
    }
  }

  lemma NothingLeft(keys: set<Key>, ks: seq<Key>, i: nat, found: seq<Key>, prefix: Bytes, limit: nat, cursor: Bytes)
    requires StrictlySorted(ks) && forall k :: k in ks <==> k in keys
    requires Stopped(ks, i, found, prefix, limit, cursor) && |found| < AtLeastOne(limit)
    requires Collected(ks, i, found, prefix, cursor)
    requires !Blocked(keys, prefix, cursor)
    ensures Remaining(keys, prefix, cursor) <= Elements(found)
  {
    forall y | y in Remaining(keys, prefix, cursor) ensures y in found {
      if y !in ks[..i] {
        var q :| 0 <= q < |ks| && ks[q] == y;
        assert forall j :: 0 <= j < i ==> ks[j] in ks[..i];
        assert i <= q && Leq(ks[i], y);
        assert ks[i] in keys;
        LessTotal(ks[i], prefix);
        if cursor != [] { LessTotal(cursor, ks[i]); }
        PrefixContiguous(prefix, ks[i], y);
      }
    }
  }
}
