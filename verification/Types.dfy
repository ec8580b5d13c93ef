/** Values shared by every component: results, manifests, log entries and the
    two hash functions the storage engine relies on. */
module Types {
  import opened Bytes

  datatype Option<+T> = None | Some(value: T)

  /** The error returns of the engine. `Panic` is a Rust panic. */
  datatype Error =
    | NotFound
    | AlreadyExists
    | InvalidKey
    | TooLarge
    | ChunkIntegrity
    | InvalidChunkFormat
    | Io
    | Panic

  datatype Result<+T> = Ok(value: T) | Err(error: Error)

  type Key = Bytes
  type ChunkId = Bytes

  datatype Manifest = Manifest(
    key: Key,
    chunks: seq<ChunkId>,
    totalSize: nat,
    chunkSize: nat,
    contentType: Bytes,
    checksum: Bytes,
    metadata: map<Bytes, Bytes>,
    createdAt: int,
    updatedAt: int)

  datatype ChunkLocation = ChunkLocation(path: Bytes, refCount: nat)

  datatype LogEntry =
    | PutManifest(manifest: Manifest)
    | DeleteManifest(key: Key)
    | PutChunkLocation(id: ChunkId, location: ChunkLocation)
    | DeleteChunkLocation(id: ChunkId)

  datatype Durability = NoSync | Sync

  /** SHA-256 (`sha`) and CRC32 (`crc`) are opaque functions. `used` holds of
      the byte strings hashed as chunks during a run; `origin` maps a chunk id
      back to the bytes it was computed from. */
  datatype Hashes = Hashes(
    sha: Bytes -> ChunkId,
    crc: Bytes -> nat,
    used: Bytes -> bool,
    origin: ChunkId -> Bytes)
  {
    /** The hypothesis on the hash functions: no collision among the chunks of
        the run, written as the existence of a left inverse. */
    ghost predicate CollisionFree() {
      && LeftInverse(origin, sha, used)
      && (forall data :: |sha(data)| == 32)
      && (forall data :: crc(data) < 0x1_0000_0000)
    }
  }

  ghost predicate LeftInverse(origin: ChunkId -> Bytes, sha: Bytes -> ChunkId, used: Bytes -> bool) {
    forall data :: used(data) ==> origin(sha(data)) == data
  }

  ghost predicate NoCollision(sha: Bytes -> ChunkId, used: Bytes -> bool) {
    forall a, b :: used(a) && used(b) && sha(a) == sha(b) ==> a == b
  }

  /** A left inverse exists exactly when no two used chunks collide. */
  lemma CollisionFreeMeansInjective(sha: Bytes -> ChunkId, used: Bytes -> bool)
    ensures (exists origin :: LeftInverse(origin, sha, used)) <==> NoCollision(sha, used)
  {
    forall origin | LeftInverse(origin, sha, used) ensures NoCollision(sha, used) {
      forall a, b | used(a) && used(b) && sha(a) == sha(b) ensures a == b {
        assert origin(sha(a)) == a && origin(sha(b)) == b;
      }
    }
    if NoCollision(sha, used) {
      ghost var origin := (id: ChunkId) => Preimage(sha, used, id);
      forall data | used(data) ensures origin(sha(data)) == data {
        assert used(Preimage(sha, used, sha(data)));
      }
      assert LeftInverse(origin, sha, used);
    }
  }

  ghost function Preimage(sha: Bytes -> ChunkId, used: Bytes -> bool, id: ChunkId): Bytes {
    if exists data :: used(data) && sha(data) == id then
      var data :| used(data) && sha(data) == id; data
    else []
  }
}
