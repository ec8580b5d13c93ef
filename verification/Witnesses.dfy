/** Concrete runs in which the program falls short of what one would expect. */
module Witnesses {
  import opened Bytes
  import opened Types
  import opened Chunking
  import opened LogText
  import opened IndexModel
  import opened Refs
  import opened Recovery
  import opened Accounts
  import opened BlobStore
  import opened Engine
  import opened HttpRange
  import opened Ranges
  import opened Serving
  import Cache
  import System
  import Upload

  /** In a store without sessions no reference makes up for those of an object. */
  lemma NotRedundant(e: StorageEngine, key: Key)
    requires e.Valid() && key in e.index.manifests && e.index.manifests[key].chunks != []
    requires Sum(e.held) == multiset{} && e.leaked == map[]
    ensures !Redundant(e.index.chunkLocations, e.index.manifests, key)
  {
    hide Recorded, Backed, CrashSafe, Catalogue, ContentAddressed, Good, Render, Replay, Occurrences, Sum, Lists;
    var m, l, id := e.index.manifests, e.index.chunkLocations, e.index.manifests[key].chunks[0];
    assert RefCount(l, id) == Occurrences(Lists(m))[id] + Sum(e.held)[id] + Leak(e.leaked, id);
    assert id in m[key].chunks;
  }

  /** Store one byte, delete it again: a crash on the way reveals an object with
      too low a count. */
  method DeleteOneByte(h: Hashes, codec: Codec<LogEntry>, key: Key, x: byte)
    returns (e: StorageEngine, ghost from: nat, ghost before: Manifests)
    requires h.CollisionFree() && Good(codec) && ValidKey(key) && h.used([x])
    ensures e.index.durability == Sync && from <= |e.disk.history|
    ensures !SafeSince(e.disk.history, from, {before, e.index.manifests})
  {
    hide Good, StorageEngine.Valid, SafeSince, Redundant, ValidKey, ObjectsOf, Reclaim, DropRefs;
    e := System.Create(h, codec, 1, 0, false, Sync);
    OneByte(h, x);
    var r := Upload.Run(e, key, [], map[], [[x]], 0);
    from, before := |e.disk.history|, e.index.manifests;
    NotRedundant(e, key);
    var _ := e.Delete(key);
  }

  lemma OneByte(h: Hashes, x: byte)
    requires h.used([x])
    ensures Concat([[x]]) == [x] && Split([x], 1) == [[x]] && AllUsed(h, Split([x], 1))
  {
    assert [x][..1] == [x] && [x][1..] == [];
    assert FullChunks([], 1) == [] && Leftover([], 1) == [];
    assert FullChunks([x], 1) == [[x]];
  }

  /** Store an empty object and ask for it over REST: the body sender panics. */
  method GetEmptyObject(h: Hashes, codec: Codec<LogEntry>, key: Key) returns (r: Response)
    requires h.CollisionFree() && Good(codec) && ValidKey(key)
    ensures r == Response(false, [], 0, None, None)
  {
    hide Good, StorageEngine.Valid, Cache.ChunkCache.Valid, SafeSince, ValidKey, ParseRange, Coherent, ObjectsOf;
    hide Slice, RangeEnd, Concat, Split, AllUsed;
    Nothing(h);
    var e := System.Create(h, codec, 1, 0, false, Sync);
    var stored := Upload.Run(e, key, [], map[], [], 0);
    assert key in e.Objects() && e.Objects()[key] == [];
    var cache := new Cache.ChunkCache(1);
    assert cache.Model().entries == [];
    Interval([], None);
    r := GetMedia(e, cache, key, None);
  }

  lemma Nothing(h: Hashes)
    ensures Concat([]) == [] && AllUsed(h, Split([], 1)) && Coherent(h, [])
  {
    assert Split([], 1) == [];
  }
}
