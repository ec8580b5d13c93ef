/** Content-addressed chunk files (blob_store.rs). */
module BlobStore {
  import opened Bytes
  import opened Types
  import opened ChunkFormat
  import opened Disk
  import Hex

  /** A chunk that may be stored: hashed in this run and small enough for the
      64-bit length field of its file. */
  ghost predicate Storable(h: Hashes, data: Bytes) {
    h.used(data) && HEADER_SIZE + |data| < U64
  }

  /** Every chunk file holds the encoding of the data its name is the hash of. */
  ghost predicate ContentAddressed(h: Hashes, files: map<ChunkId, Bytes>) {
    forall id :: id in files ==>
      && Storable(h, h.origin(id)) && h.sha(h.origin(id)) == id
      && files[id] == Encoded(h.crc, h.origin(id))
  }

  /** Every disk state passed so far held only such files. */
  ghost predicate Recorded(h: Hashes, history: seq<Snapshot>) {
    forall i :: 0 <= i < |history| ==> ContentAddressed(h, history[i].files)
  }

  lemma RecordedGrows(h: Hashes, before: seq<Snapshot>, after: seq<Snapshot>)
    requires Recorded(h, before) && before <= after
    requires forall i :: |before| <= i < |after| ==> ContentAddressed(h, after[i].files)
    ensures Recorded(h, after)
  {
    hide ContentAddressed;
  }

  class BlobStore {
    const disk: Disk
    const h: Hashes

    constructor (disk: Disk, h: Hashes)
      ensures this.disk == disk && this.h == h
    {
      this.disk := disk;
      this.h := h;
    }

    /** Keep an existing file, or write the encoded chunk. */
    method WriteChunk(id: ChunkId, data: Bytes) returns (path: Bytes)
      requires h.CollisionFree() && ContentAddressed(h, disk.files)
      requires id == h.sha(data) && Storable(h, data)
      modifies disk`files, disk`history
      ensures ContentAddressed(h, disk.files)
      ensures disk.files == if id in old(disk.files) then old(disk.files)
                            else old(disk.files)[id := Encoded(h.crc, data)]
      ensures id in old(disk.files) ==> disk.history == old(disk.history)
      ensures id !in old(disk.files) ==> disk.history == old(disk.history) + [disk.Now()]
      ensures path == Hex.ChunkPath(id)
    {
      path := Hex.ChunkPath(id);
      if id in disk.files { return; }
      var encoded := EncodeChunk(h.crc, data);
      disk.CreateFile(id, encoded);
    }

    method ReadChunk(id: ChunkId) returns (r: Result<Bytes>)
      requires h.CollisionFree() && ContentAddressed(h, disk.files)
      ensures r == if id in disk.files then Ok(h.origin(id)) else Err(NotFound)
    {
      if id !in disk.files { return Err(NotFound); }
      DecodeEncoded(h.crc, h.origin(id));
      r := DecodeChunk(h.crc, disk.files[id]);
    }

    method DeleteChunk(id: ChunkId)
      modifies disk`files, disk`history
      ensures disk.files == old(disk.files) - {id}
      ensures old(ContentAddressed(h, disk.files)) ==> ContentAddressed(h, disk.files)
      ensures id !in old(disk.files) ==> disk.history == old(disk.history)
      ensures id in old(disk.files) ==> disk.history == old(disk.history) + [disk.Now()]
    {
      if id in disk.files { disk.RemoveFile(id); }
    }

    /** `remove_file` on a path found by the directory walk. */
    method RemoveOrphan(id: ChunkId)
      modifies disk`files, disk`history
      ensures disk.files == old(disk.files) - {id}
      ensures old(ContentAddressed(h, disk.files)) ==> ContentAddressed(h, disk.files)
      ensures disk.history == old(disk.history) + [disk.Now()]
    {
      disk.RemoveFile(id);
    }

    method IterChunkFiles() returns (ids: seq<ChunkId>)
      ensures Elements(ids) == disk.files.Keys
      ensures StrictlySorted(ids)
    {
      ids := SortedKeys(disk.files.Keys);
    }
  }
}
