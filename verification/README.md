# KaidaDB storage, cache and serving: a verified model

KaidaDB stores media objects as fixed-size chunks that are named by their hash,
shared between objects, counted by reference, and indexed by an append-only log.
This project models that storage engine, the concurrent operations on it, what a
power loss leaves of it, and the fast paths above it (range readers, the LRU chunk
cache, the gRPC and REST response loops), and proves them against small
specifications. `dafny verify dfyconfig.toml` checks all of it.

## How it is built

| files | part of the system |
|---|---|
| `Bytes`, `Types`, `Hex`, `Division`, `Refs` | byte order and sorted keys, manifests and log entries, counting with multiplicity |
| `LogText`, `LogLines`, `Disk`, `IndexModel`, `Index` | the write-ahead log as text, torn tails, foreign lines, the index with compaction and listing |
| `ChunkFormat`, `BlobStore` | chunk files |
| `Chunking`, `Accounts`, `Engine`, `KeyText`, `Upload` | the engine, its keys and its upload sessions |
| `Recovery` | what a crash may reveal |
| `System`, `Trace` | whole runs against a plain map, sessions interleaved: replies, disk states, references left behind |
| `Witnesses` | concrete runs in which the program falls short |
| `Protocol`, `Linearize`, `LockTable` | key locks, reference counts and answers under any interleaving; the table of locks |
| `Ranges`, `HttpRange`, `Cache`, `Serving` | range readers, chunk cache, responses |
| `Listing`, `Calendar` | cursor walks, stream deletion, timestamps |

Objects that the program updates in place are classes (`Disk`, `Index`, `BlobStore`,
`StorageEngine`, `StoreSession`, `LruCache`, `ChunkCache`); their methods are proved
against functions of the old state, and the lemmas are about those functions.

Hypotheses, all explicit in the contracts:

- SHA-256 does not collide among the chunks of a run (`Hashes.CollisionFree`, whose
  meaning is `Types.CollisionFreeMeansInjective`); CRC32 is any function below 2^32.
- The log codec writes non-empty text without line breaks, reads back what it wrote,
  and parses neither a proper prefix of an entry nor two entries run together
  (`LogText.Good`; such codecs exist for every serialisation that can be read back, by
  `LogText.HexCodecIsGood` and `LogText.ComposedIsGood`). Whether a byte string is valid
  UTF-8 is left open, so torn multi-byte characters are covered.
- `offset + length` and chunk sizes stay below 2^64. Clocks, file ages and the surviving
  part of an unsynced log are parameters.
- A disk is its log text, its synced prefix and its chunk files; `Disk.history` records
  every state it passes through but one: the file as `open` truncates it, which is again
  a cut of the log that was opened (`LogText.RecoveryAgain`). So a statement about the
  recorded states is one about a crash at any step. A chunk file is written, renamed and
  synced in one step, and so is a compacted log.

## What the proofs found

- A cut that takes exactly the final newline of the log keeps the complete entry but not
  a well-formed file. The next append runs into it, and the following open drops both,
  the appended one being acknowledged. The comment at
  `crates/kaidadb-storage/src/index.rs:105-106` expects a clean state after truncation;
  the code truncates nothing in this case (`LogText.AppendAfterRecovery`,
  `Upload.Recover`; `LogText.NewlineLost` is a concrete log).
- A torn tail that splits a multi-byte character makes `open` fail with an I/O error
  instead of being cut off (`LogText.TornLog`, `LogText.CharacterTorn`).
- The offset where a damaged log is cut counts a line that ended in a carriage return one
  byte short, so the cut then reaches into the last good lines. The program never writes
  such lines itself (`LogLines.CutKeepsLines`).
- `delete` logs its decrements before it removes the manifest, and `rename` logs the new
  key before it removes the old one: neither is atomic under a crash, and the contracts
  of `Delete` and `Rename` say exactly when (`Witnesses.DeleteOneByte` is a concrete run).
- A dropped session keeps its references for good. The comment at
  `crates/kaidadb-storage/src/engine.rs:575-576` leaves its chunks to gc, but gc removes
  only files the index does not track, and nothing ever gives those references back
  (`System.DropThenCollect`; `System.Execute` for any run, reopenings included).
- `current_size` of the cache drifts upwards when the entry cap drops an entry inside
  `put` (`Cache.SizeExactIff`, `Cache.SizeExactForFew`, `Cache.DriftHappens`).
- A suffix range of 2^64 bytes or more is served as a full response where RFC 9110 selects
  the whole representation as a range, and so is any range whose unit is not spelled in
  lower case, though unit names are case-insensitive (`HttpRange.MatchesRfc9110`).
- The REST body sender indexes the first chunk of an empty object, which has none
  (`Serving.GetMedia`, `Witnesses.GetEmptyObject`).
- A negative timestamp is not printed as a date (`Calendar.FormatTimestamp`).

## Model

| member | source | states |
|---|---|---|
| System.Execute | crates/kaidadb-storage/src/engine.rs:124-433 | Any run of stores, overwrites, refused uploads, reads, range reads, streams, listings, deletes, renames, gc passes, compactions and reopenings (with another `chunk_size` too), with any number of upload sessions open in between, finished, aborted or dropped, gives the replies of a plain map from keys to bytes, content types, metadata and times, and ends with its contents; a range reply has 0 bytes beyond the end, all that follow the offset for length 0, and otherwise at most `length`. With fsync at commits its disk states reveal only the key maps before and after the request under way, deletes and renames that go through excepted. Every chunk flushed by a session that was dropped, or open at a reopening, is tracked and on disk at the end, whatever follows |
| System.Step | crates/kaidadb-storage/src/engine.rs:371-587 | One request keeps the refinement relation between the engine with its open sessions and the plain map; disk states reveal the map before or after it unless it is a delete or rename that goes through; the references of sessions it does not name stay, those no open session can give back for good |
| System.Revive | crates/kaidadb-storage/src/index.rs:56-136 | A power loss at any moment of such a run during an atomic request, interleaved sessions and voluntary aborts included, with any part of the unsynced log lost at any byte: what opens holds the objects the plain map has before that request or after it |
| System.DropThenCollect | crates/kaidadb-storage/src/engine.rs:573-576 | Dropping a session and running gc without grace leaves the file of every chunk it flushed; so every file the pass leaves is used by a manifest, another session or an earlier left-behind reference if and only if every chunk the session flushed is |
| Trace.StuckStays | crates/kaidadb-storage/src/engine.rs:196-235 | A chunk on disk with a reference that no open session can give back stays tracked and on disk across every step that keeps tracked files and the references of others |
| System.Create | crates/kaidadb-storage/src/engine.rs:77-91 | Opening an empty data directory gives an empty store, so such runs have a beginning |
| System.Restart | crates/kaidadb-storage/src/engine.rs:77-91 | A clean close and reopen keeps manifests and reference table exactly; what is left behind grows by exactly the references sessions held |
| Upload.Run | crates/kaidadb-api/src/grpc.rs:109-118 | A whole upload depends only on the concatenation of the received parts; the published manifest has the key, content type, metadata, times and chunk size given, and the size and checksum of those bytes; a refused upload leaves manifests and counts as they were and no new untracked file; every disk state on the way reveals, after a crash, the key map from before or after |
| Upload.Abandon | crates/kaidadb-storage/src/engine.rs:577-587 | Begin, any writes (a refused one included), abort: manifest map and chunk table are restored exactly, every tracked file stays, no chunk that only this session used keeps a file; with fsync every disk state on the way reveals the unchanged key map |
| Upload.RunAll | crates/kaidadb-storage/src/engine.rs:509-587 | Any run of uploads, overwrites, refused uploads and voluntary aborts: which jobs publish is decided by the key, the size and the caller; between two acknowledgements every disk state reveals the key map with or without the job under way, and all acknowledged jobs |
| Upload.AnyMoment | crates/kaidadb-storage/src/engine.rs:509-563 | Each moment of such a run meets the conditions under which `Recover` leads back to one of the two key maps |
| Upload.Recover | crates/kaidadb-storage/src/index.rs:56-136 | After a power loss at such a moment, with any part of the unsynced log lost at any byte, opening succeeds unless a multi-byte character is torn; the key map is an allowed one with all chunk files, and the engine is fit for further writes if and only if the cut did not take just a final newline |
| Engine.StorageEngine.Open | crates/kaidadb-storage/src/engine.rs:77-91 | The opened engine stands for the replay of the log, and is valid if and only if the log left on disk is exactly the lines of its entries |
| Engine.StorageEngine.BeginStore | crates/kaidadb-storage/src/engine.rs:139-161 | Only invalid keys are refused; a session starts empty, holding no reference |
| Engine.StorageEngine.TakeReference | crates/kaidadb-storage/src/engine.rs:516-520 | Writing a chunk and taking one reference keeps the books balanced, every needed chunk on disk, and every intermediate disk state crash safe |
| Engine.StorageEngine.DropReference | crates/kaidadb-storage/src/engine.rs:381-386 | The entry of a reference that is held always exists; it is decremented exactly once, and the file goes exactly with the last reference |
| Engine.StorageEngine.ReleaseAll | crates/kaidadb-storage/src/engine.rs:557-563 | Releasing a list with repetitions drops each occurrence once; the files left are those still tracked |
| Engine.StorageEngine.Publish | crates/kaidadb-storage/src/engine.rs:554-556 | The session's references become the manifest's in the step that makes it visible; the replaced version's stay held until released |
| Engine.StorageEngine.Commit | crates/kaidadb-storage/src/engine.rs:547-563 | An overwrite releases exactly the replaced version's occurrences, shared chunks netting out; disk states reveal the old or the new map |
| Engine.StorageEngine.Read | crates/kaidadb-storage/src/engine.rs:164-190 | Returns exactly the bytes stored under the key, and `NotFound` exactly when there is none; checksum verification never rejects them |
| Engine.StorageEngine.ReadRange | crates/kaidadb-storage/src/engine.rs:238-284 | The answer has no bytes for an offset beyond the end, all bytes from the offset for length 0 or a length that reaches further, and otherwise `length` bytes; its byte i is the byte offset + i of the object; no slice bound or subtraction goes wrong |
| Engine.StorageEngine.Stream | crates/kaidadb-storage/src/engine.rs:288-358 | The frames are non-empty and concatenate to exactly those bytes |
| Engine.StorageEngine.ReadChunks | crates/kaidadb-storage/src/engine.rs:255-283 | The loop of a range read over the chunks from the first to the last index gives exactly the bytes between the bounds |
| Engine.StorageEngine.Frames | crates/kaidadb-storage/src/engine.rs:323-355 | The chunk loop emits the range piece by piece |
| Engine.StorageEngine.Delete | crates/kaidadb-storage/src/engine.rs:371-391 | Removes exactly this object, drops each listed occurrence, leaves every other object and its chunks; with fsync, its disk states are all crash safe if and only if every count, less the references of this object, still is at least the occurrences with it listed |
| Engine.StorageEngine.Rename | crates/kaidadb-storage/src/engine.rs:395-433 | The four outcomes with their exact conditions; bytes move, chunk table and files stay; its disk states are all crash safe if and only if the target key is invalid or taken, or the source key equals it or is missing: a successful rename passes through one that reveals both keys |
| Engine.StorageEngine.Gc | crates/kaidadb-storage/src/engine.rs:196-235 | Removes exactly the untracked files that are not recent, and counts exactly; nothing dangles in a store without left-behind references; its disk states reveal the unchanged key map |
| Engine.StorageEngine.List | crates/kaidadb-storage/src/engine.rs:436-443 | At most `limit` manifests, one for a limit of 0; a cursor, the last key, exactly when that many were found; in key order, under the prefix, behind the cursor; nothing left out but behind a full page or where a foreign key blocks the scan |
| Engine.StorageEngine.Sweep | crates/kaidadb-storage/src/engine.rs:201-221 | The removal loop over the directory listing, with its two counters |
| Engine.StorageEngine.CanReopen | crates/kaidadb-storage/src/engine.rs:77-91 | At any time the disk of a valid engine replays to its memory |
| Engine.StorageEngine.ObjectOnDisk | crates/kaidadb-storage/src/engine.rs:164-175 | Every chunk of every visible object has its file |
| Engine.StorageEngine.Dispose | crates/kaidadb-storage/src/engine.rs:381-386 | The decrements of a delete, while the manifest is still listed: crash safe if the counts exceed the occurrences by the references given up, and otherwise ending in a count that is too low |
| Engine.DroppedEarly | crates/kaidadb-storage/src/engine.rs:381-388 | A log that ends before the removal, with a count below the occurrences, is not crash safe |
| Engine.BothKeys | crates/kaidadb-storage/src/engine.rs:428-429 | Between the two log entries of a rename a crash reveals both keys |
| KeyText.KeyRules | crates/kaidadb-storage/src/engine.rs:32-47 | A key is accepted exactly when it is not empty, takes at most 1024 bytes of UTF-8 and has no control character (U+0000 to U+001F, U+007F to U+009F) |
| Engine.BuiltWellFormed | crates/kaidadb-storage/src/engine.rs:530-545 | A finished manifest stands for exactly the bytes fed: size, checksum and chunk boundaries agree with them |
| Engine.StoreSession.Write | crates/kaidadb-storage/src/engine.rs:487-506 | Accepts the bytes, or refuses all of them exactly when the limit would be exceeded; takes one reference per flushed chunk; crash safe throughout |
| Engine.StoreSession.FlushChunk | crates/kaidadb-storage/src/engine.rs:509-527 | Stores the buffer under its hash and records one reference on it |
| Engine.StoreSession.Finish | crates/kaidadb-storage/src/engine.rs:530-571 | Commits, under the session's key and in place of any earlier version, the manifest with the content type, metadata, time, chunk size, total size and checksum that belong to the session and the bytes fed |
| Engine.StoreSession.Abort | crates/kaidadb-storage/src/engine.rs:577-587 | Gives back every reference taken, with multiplicity, and the files of chunks no longer tracked |
| Accounts.TrackedIff | crates/kaidadb-storage/src/index.rs:284-319 | A chunk is tracked if and only if a manifest lists it, a session holds it, or it was left behind |
| Accounts.TakeOne | crates/kaidadb-storage/src/index.rs:284-299 | Taking a reference keeps count = occurrences + held + left behind |
| Accounts.DropOne | crates/kaidadb-storage/src/index.rs:304-319 | So does giving one up; the entry exists, and disappears exactly with the last reference |
| Accounts.Exchange | crates/kaidadb-storage/src/engine.rs:554-563 | Publishing moves references from session to manifest and from the replaced manifest to the session |
| Accounts.SpareIff | crates/kaidadb-storage/src/engine.rs:381-388 | References of sessions and left-behind ones make up for those of a manifest if and only if the counts exceed the occurrences by them, which a caller can read off the index |
| Accounts.MoveKey | crates/kaidadb-storage/src/engine.rs:422-429 | Moving a manifest to a fresh key changes no count |
| Accounts.OpenBooks | crates/kaidadb-storage/src/index.rs:70-119 | Any recovered state with sufficient counts balances once its excess is written off |
| Recovery.CommitSafe | crates/kaidadb-storage/src/index.rs:142-187 | While a manifest entry is appended, synced and perhaps compacted, a crash reveals the key map from before or after it |
| Recovery.CrashThenReplay | crates/kaidadb-storage/src/index.rs:70-119 | From any byte cut that keeps the synced prefix, replay reveals one of the allowed key maps with all chunk files and sufficient counts |
| Recovery.Exposed | crates/kaidadb-storage/src/index.rs:142-154 | A log that replays to a count below a chunk's occurrences, or to a foreign key map, is not crash safe |
| Index.Index.Open | crates/kaidadb-storage/src/index.rs:56-136 | Replays up to the first bad line and cuts the file there; log and memory agree afterwards if and only if the file is exactly the lines of the entries |
| Index.ReplayLines | crates/kaidadb-storage/src/index.rs:78-103 | The replay loop computes state, entry count, cut offset and truncation flag of the log text |
| Index.Index.AppendEntry | crates/kaidadb-storage/src/index.rs:142-154 | Appends one line; synced exactly at operation boundaries under fsync durability |
| Index.Index.Compact | crates/kaidadb-storage/src/index.rs:322-366 | The rewritten log replays to the same maps and has one entry per live item |
| Index.Index.MaybeCompact | crates/kaidadb-storage/src/index.rs:157-175 | Leaves the log alone when it has fewer than 1024 entries or fewer than twice the live ones, and otherwise rewrites it to exactly the live ones; entries rewritten are paid for by entries appended |
| Index.Index.PutManifest | crates/kaidadb-storage/src/index.rs:179-187 | Inserts one manifest; log and memory agree; every disk state passed either only gained the entry or is fully synced |
| Index.Index.DeleteManifest | crates/kaidadb-storage/src/index.rs:193-201 | Removes one manifest; the same guarantees |
| Index.Index.AddChunkRef | crates/kaidadb-storage/src/index.rs:284-299 | Creates at one or increments; one unsynced entry |
| Index.Index.DecrementChunkRef | crates/kaidadb-storage/src/index.rs:304-319 | Removes at one or decrements; reports exactly whether the entry went away |
| Index.Index.ListManifests | crates/kaidadb-storage/src/index.rs:203-240 | At most `limit` manifests, one for a limit of 0; a cursor, the last key, exactly when that many were found; in key order, under the prefix, behind the cursor; nothing left out but behind a full page or where a foreign key blocks the scan |
| IndexModel.PageMeans | crates/kaidadb-storage/src/index.rs:220-240 | The page the specification names has these properties, for every prefix, limit and cursor |
| Index.PageComplete | crates/kaidadb-storage/src/index.rs:220-237 | Where the scan stops it has collected exactly that page |
| Index.Drive | crates/kaidadb-storage/src/index.rs:157-319 | Any run of index operations: replaying the log rebuilds the maps, which are as if nothing was compacted; entries rewritten plus the log come to at most the initial log plus the entries appended, at most one per operation; the log is short after every manifest operation |
| IndexModel.ReplayLive | crates/kaidadb-storage/src/index.rs:322-347 | Replaying the live entries of a state gives back that state |
| IndexModel.DropUndoesAdd | crates/kaidadb-storage/src/index.rs:284-319 | Taking references and giving all back, in any order and multiplicity, restores the chunk table |
| Bytes.PrefixContiguous | crates/kaidadb-storage/src/index.rs:220-224 | Prefixed keys are contiguous in byte order, so the scan may stop at the first other key |
| Bytes.LessMeans | crates/kaidadb-storage/src/index.rs:214-218 | The key order is decided by the first byte that differs, a proper prefix coming first |
| LogText.ParseRendered | crates/kaidadb-storage/src/index.rs:78-103 | An intact log replays to its entries |
| LogText.TornLog | crates/kaidadb-storage/src/index.rs:70-119 | For every byte prefix of a log: exactly the entries whose text is complete, or an I/O error when the tail is not valid text; what is left of the file |
| LogText.AppendAfterRecovery | crates/kaidadb-storage/src/index.rs:105-154 | Reopen, append, reopen gives the recovered entries and the new one if and only if the cut did not take just a final newline; then both are lost |
| LogText.CleanCut | crates/kaidadb-storage/src/index.rs:142-154 | A cut behind a synced entry keeps that entry |
| LogLines.ReadsAll | crates/kaidadb-storage/src/index.rs:78-103 | A file of blank lines and lines that hold entries, with or without carriage returns, replays to those entries and is left alone |
| LogLines.ReadsUnterminated | crates/kaidadb-storage/src/index.rs:78-103 | So does one whose last line lacks only its newline |
| LogLines.CutKeepsLines | crates/kaidadb-storage/src/index.rs:89-119 | The first line that is neither ends the replay whatever follows; the cut leaves exactly the lines before it if and only if none of them ends in a carriage return, and otherwise takes a byte of them for each that does |
| LogLines.FailsOnBadText | crates/kaidadb-storage/src/index.rs:80-81 | A line that is no text makes opening fail |
| LogText.RecoveryAgain | crates/kaidadb-storage/src/index.rs:105-136 | A crash during recovery: what open leaves of a cut log is again a cut of that log behind everything synced, recovers to the same entries, and is left as it is |
| LogText.NewlineLost | crates/kaidadb-storage/src/index.rs:105-154 | A log of one entry without its newline: recovered and not repaired; after the next append both entries are gone |
| LogText.CharacterTorn | crates/kaidadb-storage/src/index.rs:78-86 | A codec with multi-byte text and a torn log that cannot be opened |
| LogText.ComposedIsGood | crates/kaidadb-storage/src/index.rs:142-150 | Any serialisation of entries that can be read back, written by a good codec for bytes, is a good codec for entries; so the hypothesis on the log format can be met |
| BlobStore.BlobStore.WriteChunk | crates/kaidadb-storage/src/blob_store.rs:33-67 | Keeps an existing file, else creates the encoding; all files stay content addressed |
| BlobStore.BlobStore.ReadChunk | crates/kaidadb-storage/src/blob_store.rs:70-83 | Returns the bytes the id was computed from, or `NotFound` exactly when the file is missing |
| BlobStore.BlobStore.DeleteChunk | crates/kaidadb-storage/src/blob_store.rs:86-93 | Removes that file only |
| BlobStore.BlobStore.IterChunkFiles | crates/kaidadb-storage/src/blob_store.rs:102-130 | Lists each chunk file once |
| Hex.ChunkPathInjective | crates/kaidadb-storage/src/blob_store.rs:136-142 | Different chunks have different files |
| Hex.ChunkPathShape | crates/kaidadb-storage/src/blob_store.rs:136-142 | `chunks/`, the first two id bytes as directories, the whole id in lower-case hexadecimal, `.kdc` |
| Hex.EncodeDigits | crates/kaidadb-common/src/types.rs:38-41 | Two lower-case digits a byte, the high one first |
| Hex.RoundTrip | crates/kaidadb-common/src/types.rs:38-48 | Hexadecimal ids decode to what was encoded |
| Types.CollisionFreeMeansInjective | crates/kaidadb-common/src/types.rs:28-36 | The hypothesis on SHA-256 used throughout says exactly that no two chunks of the run collide |
| ChunkFormat.EncodeChunk | crates/kaidadb-storage/src/chunk_format.rs:17-29 | The buffer built field by field is the file image with zero flags |
| ChunkFormat.EncodedShape | crates/kaidadb-storage/src/chunk_format.rs:7-29 | That image is `KDBC`, version 1, no flags, checksum and length in 4 and 8 bytes, then the data |
| ChunkFormat.Refused | crates/kaidadb-storage/src/chunk_format.rs:32-71 | Which error each refused file gets: bad header, length beyond the file, checksum of the payload, and a panic exactly when header and length together overflow 64 bits |
| ChunkFormat.DecodeImage | crates/kaidadb-storage/src/chunk_format.rs:32-71 | Whatever the flags byte and the trailing bytes, decoding returns the encoded payload |
| ChunkFormat.AcceptedIsImage | crates/kaidadb-storage/src/chunk_format.rs:32-71 | Every accepted input is, apart from flags and trailing bytes, the encoding of what is returned |
| ChunkFormat.LeRoundTrip | crates/kaidadb-storage/src/chunk_format.rs:25-26 | Little-endian integers that fit their width read back |
| ChunkFormat.LeInverse | crates/kaidadb-storage/src/chunk_format.rs:50-51 | And every byte string is the encoding of the integer read from it |
| ChunkFormat.LeBytes | crates/kaidadb-storage/src/chunk_format.rs:25-26 | The least significant byte comes first |
| Chunking.Feed | crates/kaidadb-storage/src/engine.rs:495-504 | Chunk boundaries do not depend on how the bytes are fed |
| Chunking.FeedStep | crates/kaidadb-storage/src/engine.rs:496-503 | One turn of the write loop |
| Chunking.SplitShape | crates/kaidadb-storage/src/engine.rs:509-545 | Chunks concatenate to the data, all but the last are exactly `chunk_size`, none is empty, and there are ceil(n / chunk_size) |
| Ranges.PieceIsOverlap | crates/kaidadb-storage/src/engine.rs:262-280 | The slice cut from each chunk is in bounds and is exactly its overlap with the range |
| Ranges.Extend | crates/kaidadb-storage/src/engine.rs:262-281 | Emitting a chunk extends the output to the next boundary |
| Ranges.EmittedEnds | crates/kaidadb-storage/src/engine.rs:244-260 | From the first to the last chunk index exactly the requested slice is emitted |
| Protocol.Conserved | crates/kaidadb-storage/src/engine.rs:371-433 | In every run of interleaved uploads, deletes and renames: each count is exact at every step, no decrement a thread could make next meets a missing entry, and no two operations own the same key |
| Protocol.RunKeepsInv | crates/kaidadb-storage/src/engine.rs:371-433 | The four-part invariant is kept by every run |
| Protocol.NextKeepsInv | crates/kaidadb-storage/src/engine.rs:547-563 | And by every single step, whichever thread takes it |
| Protocol.MoveBalanced | crates/kaidadb-storage/src/engine.rs:381-388 | Each step is balanced chunk by chunk between count, held, owed, listed and left behind |
| Protocol.StepKeepsBooks | crates/kaidadb-storage/src/index.rs:284-319 | Count + decrements done by deletes + double entries of renames = occurrences in manifests + held by sessions and pending releases + left by dropped sessions; the counts are those of the index's own table |
| Protocol.DebitsCovered | crates/kaidadb-storage/src/engine.rs:381-388 | What deletes and renames in flight owe is covered by the manifests they own |
| Protocol.NothingMissing | crates/kaidadb-storage/src/index.rs:304-319 | No decrement meets a missing entry |
| Protocol.TrackedWhenSettled | crates/kaidadb-storage/src/index.rs:284-319 | With no delete or rename half done, a chunk is tracked if and only if a manifest lists it, a session or pending release holds it, or a dropped session left it |
| Protocol.StepKeepsTable | crates/kaidadb-storage/src/engine.rs:106-115 | Creating and pruning mutexes on demand keeps all live handles of one key the same mutex |
| Protocol.StepKeepsHolder | crates/kaidadb-storage/src/engine.rs:401-411 | Locking and unlocking keep each mutex with the thread that took it |
| Protocol.StepKeepsFacts | crates/kaidadb-storage/src/engine.rs:375-388 | What an operation has read of a manifest it owns stays true until it is done |
| Protocol.WaitsUpwards | crates/kaidadb-storage/src/engine.rs:401-411 | A thread that waits while holding a mutex waits for a greater key |
| Protocol.SomeoneProceeds | crates/kaidadb-storage/src/engine.rs:401-411 | Whenever operations hold or wait for key locks, one of them can proceed |
| Protocol.RunsToEnd | crates/kaidadb-storage/src/engine.rs:371-433 | From every reachable state all operations can run to completion |
| Protocol.RestAgain | crates/kaidadb-storage/src/index.rs:284-319 | Then no mutex is held and each count is the occurrences in manifests, plus what dropped sessions left |
| Linearize.Linearizable | crates/kaidadb-storage/src/engine.rs:371-563 | Every run of interleaved uploads, deletes and renames is linearizable: at each step the visible manifests are those of the operations that took effect, done one at a time, each answers what it answers alone at its place, the list only grows by the operation that steps, and the references left behind are exactly the flushed chunks of dropped sessions |
| Linearize.TakesEffect | crates/kaidadb-storage/src/engine.rs:371-563 | A step changes what is visible exactly when its operation takes effect, and then as the operation alone would |
| Linearize.Outcomes | crates/kaidadb-storage/src/engine.rs:371-563 | When all operations have answered, the manifests are what the listed ones leave: every delete and rename, and every upload its caller finished, with exactly the chunks it had flushed; aborted and dropped uploads are not in the list |
| Linearize.RealTime | crates/kaidadb-storage/src/engine.rs:371-563 | An operation that is done before another arrives comes before it |
| Linearize.Unlocks | crates/kaidadb-storage/src/engine.rs:371-563 | When an operation gives up a key's mutex the key is gone after a delete, has the flushed chunks after an upload, and has moved after a rename that answered so |
| LockTable.TableBounded | crates/kaidadb-storage/src/engine.rs:106-115 | With at most n lock handles in use at any time the mutex table never has more than 1025 entries, or more than n + 1 |
| Listing.NextPage | crates/kaidadb-storage/src/index.rs:203-240 | After a full page exactly its keys have left the remaining ones, and cursors strictly increase |
| Listing.WalkAll | crates/kaidadb-tui/src/app.rs:266-294 | Following `next_cursor` from the start terminates with all manifests under the prefix, in key order, each once |
| Listing.DeleteStream | crates/kaidadb-api/src/streaming.rs:578-614 | Terminates and removes exactly the keys under the prefix, though each cursor names a deleted key; other objects keep their bytes; the counts are those of the keys ending in `/init.mp4` and of the others |
| Listing.DeleteStep | crates/kaidadb-api/src/streaming.rs:589-611 | One page of that loop |
| Cache.RunAccounts | crates/kaidadb-cache/src/lib.rs:45-92 | In every run stored bytes are at most `max_size`, and `current_size` exceeds them by exactly the bytes the entry cap dropped unreported |
| Cache.SizeExactIff | crates/kaidadb-cache/src/lib.rs:80-83 | So the size is right if and only if no insert brought a new id into a map still full after evicting whose least recent entry is not empty |
| Cache.SizeExactForFew | crates/kaidadb-cache/src/lib.rs:32-36 | In particular when no more different ids are inserted than the map has room for |
| Cache.RunLatest | crates/kaidadb-cache/src/lib.rs:45-92 | In every run a hit returns what was inserted last under its id, and not since invalidated |
| Cache.KeptAndLost | crates/kaidadb-cache/src/lib.rs:61-92 | An insert that is not too large is kept, and others are lost only when the limit or the cap is reached; an invalidated entry is gone, a lookup loses nothing |
| Cache.EvictMinimal | crates/kaidadb-cache/src/lib.rs:71-77 | Eviction drops no more than needed: with the last entry it dropped there was not room enough |
| Cache.DriftHappens | crates/kaidadb-cache/src/lib.rs:80-83 | A run in which it is wrong |
| Cache.RunRecency | crates/kaidadb-cache/src/lib.rs:45-92 | Entries stand in order of their last use, hence are distinct, and never exceed the cap |
| Cache.EvictedIsOlder | crates/kaidadb-cache/src/lib.rs:71-83 | Whatever an insert throws out was used less recently than everything it keeps |
| Cache.EvictShape | crates/kaidadb-cache/src/lib.rs:71-77 | The eviction loop never underflows and stops with room or nothing left |
| Cache.PutStored | crates/kaidadb-cache/src/lib.rs:80-83 | Byte accounting of one `put`, the unreported entry included |
| Cache.ChunkCache.constructor | crates/kaidadb-cache/src/lib.rs:30-42 | The entry cap is the size over 2 MiB, at least 64 |
| Cache.ChunkCache.Get | crates/kaidadb-cache/src/lib.rs:45-58 | A hit moves the entry to the front and is counted |
| Cache.ChunkCache.Insert | crates/kaidadb-cache/src/lib.rs:61-84 | Does what the specification says: skip, evict, replace, account |
| Cache.ChunkCache.Invalidate | crates/kaidadb-cache/src/lib.rs:87-92 | Removes one entry and its bytes |
| Serving.CoherentNext | crates/kaidadb-cache/src/lib.rs:45-92 | If cached values are their chunks' contents they stay so, and a hit returns the content |
| Serving.FetchChunk | crates/kaidadb-api/src/grpc.rs:203-219 | Cache first, else storage with a cache fill: the chunk's content either way |
| Serving.StreamMedia | crates/kaidadb-api/src/grpc.rs:157-254 | Whatever the cache holds, the frames carry exactly the requested bytes, number consecutively, have contiguous offsets, and only the final one is last |
| Serving.SendFrames | crates/kaidadb-api/src/grpc.rs:195-251 | The sender loop |
| Serving.GetMedia | crates/kaidadb-api/src/rest.rs:193-329 | Whatever the cache holds, the body is the parsed interval, Content-Type, Content-Length and Content-Range describe it, and the sender fails if and only if the object is empty; without a header, or with one that is ignored, it is the whole object and no partial response |
| Serving.SendBody | crates/kaidadb-api/src/rest.rs:250-304 | The body loop |
| HttpRange.MatchesRfc9110 | crates/kaidadb-api/src/rest.rs:497-543 | A single byte range, its unit spelled in any case, selects what section 14.1 of RFC 9110 says if and only if it is unsatisfiable, or the unit is spelled exactly `bytes` and it is not a suffix length of 2^64 or more; otherwise the whole object is served |
| HttpRange.ParseRange | crates/kaidadb-api/src/rest.rs:497-543 | The result is the whole object or a non-empty interval inside it |
| HttpRange.IgnoredIsWhole | crates/kaidadb-api/src/rest.rs:498-503 | No header, bytes that are not visible ASCII, another beginning than `bytes=`, or an empty object: the whole object, and no partial response |
| HttpRange.NoDashIsWhole | crates/kaidadb-api/src/rest.rs:515-540 | No dash: the same |
| HttpRange.SuffixForm | crates/kaidadb-api/src/rest.rs:505-514 | A dash and a number, perhaps with a plus sign: that many last bytes, or all there are; zero, no number, or one of 2^64 or more: the whole object |
| HttpRange.IntForm | crates/kaidadb-api/src/rest.rs:515-540 | First and last position: exactly these bytes, cut at the end; a last position that is missing or no number stands for the end; the whole object where the first is no number or beyond the end, or the last lies before it |
| Witnesses.DeleteOneByte | crates/kaidadb-storage/src/engine.rs:371-391 | Storing one byte and deleting it passes a disk state that is not crash safe |
| Witnesses.GetEmptyObject | crates/kaidadb-api/src/rest.rs:250-268 | Storing an empty object and asking for it makes the body sender fail |
| Calendar.FormatTimestamp | crates/kaidadb-tui/src/ui.rs:1334-1379 | For every non-zero timestamp the fields are a valid Gregorian date and time if and only if it is positive, and then denote exactly that many seconds since 1970; for a negative one each field is given |
| Calendar.YearOf | crates/kaidadb-tui/src/ui.rs:1345-1354 | The year loop terminates in the year the day falls into |
| Calendar.MonthOf | crates/kaidadb-tui/src/ui.rs:1356-1369 | The month loop always stops inside the year |
| Calendar.YearStep | crates/kaidadb-tui/src/ui.rs:1381-1383 | The leap rule adds up to the closed form of the calendar |

## Left out

- BlobStore.BlobStore.WriteChunk: temporary file, write, fsync, rename and directory sync are one step that cannot be torn; the program syncs only the innermost directory it created, so losing a new outer directory is not modelled.
- BlobStore.BlobStore.IterChunkFiles: the walk over two levels of directories and its filters on names are replaced by the chunk files in id order; temporary files and foreign names are not modelled.
- Index.Index.Compact: the rename over the old log counts as durable at once, where the program does not sync the directory after it.
- LogText.RecoveryAgain: truncation at open is covered by this lemma on texts, and not recorded in `Disk.history`.
- HttpRange.MatchesRfc9110: sets of several ranges, empty list elements and other units are not modelled; a unit that is not `bytes` in any case is served whole by `ParseRange`.
- Error returns of the file system: every read, write, sync and rename of a file succeeds in the model, reading text that is no UTF-8 excepted.
- Files under fine-grained interleaving: `Protocol` covers the index and the key locks only; that each referenced chunk has its file is proved for operations run one at a time, because no lock covers the file operations.
- Gc racing uploads: the grace period is a parameter (`recent`), not a protection that is proved.
- Compaction racing appends: compaction is one atomic step, as its state lock is dropped before the file swap.
- `Durability::None`: the crash statements are for fsync at commits; without it the log may lose any suffix.
- Overflow of the 32-bit reference count, of the 64-bit log counter and of the 32-bit deletion counters: numbers are unbounded, except where a bound is stated.
- Serving.StreamMedia: objects are assumed to have at most 2^32 chunks, so that the sequence number does not wrap.
- Linearize.Linearizable: speaks of uploads, deletes and renames, which take key locks. Readers take none, so one may see both keys of a rename under way, or an object some of whose chunks a delete has already given up; the visible manifests leave the doubled key out.
- Protocol.Conserved: a thread drops its handle on a mutex together with unlocking it; the program drops it a little later, which only keeps table entries longer.
- Engine.StorageEngine.Stream: the channel and the spawned task are a returned list of frames; a receiver that goes away early is not modelled, neither here nor in `Serving`.
- Failed client uploads at the API layer, where the worker still finishes what it received.
- Chunk tables are keyed by chunk id, where the index uses its hexadecimal form (`Hex.RoundTrip`).
- The memory-mapped read, the multi-threaded locks of the index and the cache, and the counters of `stats` other than hits and misses.
- Serving.GetMedia: status line, `Accept-Ranges` and the normalisation of the path into a key.
- `list_streams`, HLS and DASH texts, variant and segment discovery: shallow string handling.
- Transport, authentication, configuration, the command line, the terminal interface apart from its listing walk and its timestamps.
