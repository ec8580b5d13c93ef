/** Durable storage: the index log and the chunk files, with a record of every
    state a power loss could freeze. */
module Disk {
  import opened Bytes
  import opened Types
  import opened LogText

  /** A frozen disk. Of the log, the first `synced` entries have been fsynced;
      any byte suffix behind them may be lost. */
  datatype Snapshot = Snapshot(entries: seq<LogEntry>, synced: nat, files: map<ChunkId, Bytes>)

  class Disk {
    const codec: Codec<LogEntry>
    var log: Bytes
    var files: map<ChunkId, Bytes>
    ghost var entries: seq<LogEntry>
    ghost var synced: nat
    ghost var history: seq<Snapshot>

    /** The log is exactly the lines of `entries`. */
    ghost predicate Intact()
      reads this
    {
      Good(codec) && synced <= |entries| && log == Render(codec, entries)
    }

    /** Replaying the log, if it can be read, yields `entries`. */
    ghost predicate Readable()
      reads this
    {
      && Good(codec) && synced <= |entries|
      && (Parse(codec, log).Ok? ==> Parse(codec, log).value.entries == entries)
    }

    ghost function Now(): Snapshot
      reads this
    {
      Snapshot(entries, synced, files)
    }

    constructor Empty(codec: Codec<LogEntry>)
      requires Good(codec)
      ensures this.codec == codec && Intact() && log == [] && entries == [] && files == map[]
      ensures synced == 0 && history == []
    {
      this.codec := codec;
      log, files, entries, synced, history := [], map[], [], 0, [];
    }

    /** The disk found after a power loss froze `s` and kept `k` bytes of log. */
    constructor AfterCrash(codec: Codec<LogEntry>, ghost s: Snapshot, bytes: Bytes, files: map<ChunkId, Bytes>,
                           ghost k: nat)
      requires Good(codec) && k <= |Render(codec, s.entries)|
      requires bytes == Render(codec, s.entries)[..k] && files == s.files
      ensures this.codec == codec && Readable() && log == bytes && this.files == files
      ensures entries == s.entries[..Complete(codec, s.entries, k)] && synced == |entries|
      ensures history == []
    {
      TornLog(codec, s.entries, k);
      this.codec := codec;
      this.log := bytes;
      this.files := files;
      entries := s.entries[..Complete(codec, s.entries, k)];
      synced := Complete(codec, s.entries, k);
      history := [];
    }

    method AppendLine(e: LogEntry)
      requires Intact()
      modifies this`log, this`entries, this`history
      ensures Intact() && entries == old(entries) + [e]
      ensures history == old(history) + [Now()]
    {
      RenderSnoc(codec, entries, e);
      log := log + codec.enc(e) + [NEWLINE];
      assert log == Render(codec, entries) + Line(codec, e);
      entries := entries + [e];
      history := history + [Now()];
    }

    method SyncLog()
      requires Intact()
      modifies this`synced, this`history
      ensures Intact() && synced == |entries|
      ensures history == old(history) + [Now()]
    {
      synced := |entries|;
      history := history + [Now()];
    }

    /** Atomic rename of a fully synced new log over the old one. */
    method ReplaceLog(text: Bytes, ghost es: seq<LogEntry>)
      requires Good(codec) && text == Render(codec, es)
      modifies this`log, this`entries, this`synced, this`history
      ensures Intact() && entries == es && synced == |es|
      ensures history == old(history) + [Now()]
    {
      log, entries, synced := text, es, |es|;
      history := history + [Now()];
    }

    /** `set_len` and `sync_all` on the torn log found at open. */
    method Truncate(n: nat)
      requires n <= |log|
      modifies this`log, this`synced
      ensures log == old(log)[..n] && synced == |entries|
    {
      log := log[..n];
      synced := |entries|;
    }

    method CreateFile(id: ChunkId, contents: Bytes)
      modifies this`files, this`history
      ensures files == old(files)[id := contents]
      ensures history == old(history) + [Now()]
    {
      files := files[id := contents];
      history := history + [Now()];
    }

    method RemoveFile(id: ChunkId)
      modifies this`files, this`history
      ensures files == old(files) - {id}
      ensures history == old(history) + [Now()]
    {
      files := files - {id};
      history := history + [Now()];
    }
  }
}
