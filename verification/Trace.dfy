/** What whole runs leave behind besides their replies: the disk states a crash
    could freeze, and the references nobody can give back any more. */
module Trace {
  import opened Types
  import opened LogText
  import opened IndexModel
  import opened Refs
  import opened Recovery
  import opened Accounts
  import opened Disk
  import opened BlobStore
  import opened Engine

  /** What an engine and its disk have come to. */
  datatype Moment = Moment(
    history: seq<Snapshot>,
    manifests: Manifests,
    locations: Locations,
    files: set<ChunkId>,
    held: seq<multiset<ChunkId>>,
    synced: bool)

  ghost function At(e: StorageEngine): Moment
    reads e, e.index, e.disk
  {
    Moment(e.disk.history, e.index.manifests, e.index.chunkLocations, e.disk.files.Keys, e.held,
           e.index.durability == Sync)
  }

  /** From `a` to `b`, every disk state passed reveals the key map of `a` or of
      `b`, if the step is an atomic one; and no tracked chunk lost its file. */
  ghost predicate Progress(a: Moment, b: Moment, atomic: bool) {
    && a.history <= b.history
    && (b.synced && atomic ==> SafeSince(b.history, |a.history|, {a.manifests, b.manifests}))
    && a.files * b.locations.Keys <= b.files
  }

  lemma NoProgress(a: Moment)
    ensures Progress(a, a, true)
  {
  }

  /** A step that keeps the key map. */
  lemma SameMap(a: Moment, b: Moment)
    requires a.history <= b.history && a.manifests == b.manifests && a.files * b.locations.Keys <= b.files
    requires b.synced ==> SafeSince(b.history, |a.history|, {b.manifests})
    ensures Progress(a, b, true)
  {
    hide SafeSince;
    assert {a.manifests, b.manifests} == {b.manifests};
  }

  // ---- references left behind ----

  /** Holders at other than the given slots keep what they have. */
  ghost predicate Apart(held: seq<multiset<ChunkId>>, slots: set<nat>,
                        held': seq<multiset<ChunkId>>, slots': set<nat>) {
    && |held| <= |held'|
    && forall k :: 0 <= k < |held| && k !in slots ==> held'[k] == held[k] && k !in slots'
  }

  /** Held at a slot that no open session has. */
  ghost predicate Loose(held: seq<multiset<ChunkId>>, slots: set<nat>, k: nat, id: ChunkId) {
    k < |held| && k !in slots && id in held[k]
  }

  /** A chunk on disk with a reference that no open session can give back. */
  ghost predicate Stuck(m: Moment, leaked: Leaked, slots: set<nat>, id: ChunkId) {
    && id in m.locations && id in m.files
    && (Leak(leaked, id) > 0 || exists k :: Loose(m.held, slots, k, id))
  }

  lemma TrackedWhenLeaked(e: StorageEngine, id: ChunkId)
    requires e.Valid() && Leak(e.leaked, id) > 0
    ensures id in e.index.chunkLocations
  {
    hide Recorded, Backed, CrashSafe, Catalogue, ContentAddressed, Good, Render, Replay, Occurrences, Sum;
    assert RefCount(e.index.chunkLocations, id) > 0;
  }

  lemma HeldOnDisk(e: StorageEngine, k: nat, id: ChunkId)
    requires e.Valid() && k < |e.held| && id in e.held[k]
    ensures id in e.index.chunkLocations && id in e.disk.files
  {
    hide StorageEngine.Valid;
    e.TrackedBacked();
    SumHolds(e.held, id);
    assert Needed(e.index.manifests, e.held, id);
  }

  /** Whatever else is done, the chunk stays tracked and on disk. */
  lemma StuckStays(e: StorageEngine, a: Moment, slots: set<nat>, slots': set<nat>, atomic: bool, id: ChunkId)
    requires e.Valid() && Progress(a, At(e), atomic) && Apart(a.held, slots, e.held, slots')
    requires Stuck(a, e.leaked, slots, id)
    ensures Stuck(At(e), e.leaked, slots', id)
  {
    hide StorageEngine.Valid, SafeSince;
    if Leak(e.leaked, id) > 0 {
      TrackedWhenLeaked(e, id);
    } else {
      var k :| Loose(a.held, slots, k, id);
      HeldOnDisk(e, k, id);
      assert Loose(e.held, slots', k, id);
    }
  }

  /** Also across a reopening, where the references of all holders are left
      behind. */
  lemma StuckAcross(e: StorageEngine, a: Moment, leaked: Leaked, slots: set<nat>, id: ChunkId)
    requires e.index.chunkLocations == a.locations && e.disk.files.Keys == a.files
    requires forall x :: Leak(e.leaked, x) == Leak(leaked, x) + Sum(a.held)[x]
    requires Stuck(a, leaked, slots, id)
    ensures Stuck(At(e), e.leaked, {}, id)
  {
    hide Sum;
    if k :| Loose(a.held, slots, k, id) { SumHolds(a.held, id); }
  }
}
