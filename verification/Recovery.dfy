/** What a power loss may reveal, for a disk state frozen at any moment. */
module Recovery {
  import opened Types
  import opened LogText
  import opened IndexModel
  import opened Refs
  import opened Disk
  import Index

  ghost function Lists(m: Manifests): ChunkLists {
    map k | k in m :: m[k].chunks
  }

  /** Every chunk counts at least its occurrences in manifests. */
  ghost predicate Covers(s: IndexState) {
    Positive(s.locations) && forall id :: Occurrences(Lists(s.manifests))[id] <= RefCount(s.locations, id)
  }

  /** Every chunk of every visible object has its file. */
  ghost predicate Present(m: Manifests, files: set<ChunkId>) {
    forall k, id :: k in m && id in m[k].chunks ==> id in files
  }

  /** Replaying `es` reveals one of the given key maps, with all chunk files and
      sufficient reference counts. */
  ghost predicate Reveals(es: seq<LogEntry>, files: set<ChunkId>, maps: set<Manifests>) {
    var s := Replay(es);
    s.manifests in maps && Covers(s) && Present(s.manifests, files)
  }

  /** Whatever part of the unsynced log survives, replay reveals one of `maps`. */
  ghost predicate CrashSafe(d: Snapshot, maps: set<Manifests>) {
    d.synced <= |d.entries|
    && forall n :: d.synced <= n <= |d.entries| ==> Reveals(d.entries[..n], d.files.Keys, maps)
  }

  /** Every disk state recorded since the first `from` is crash safe. */
  ghost predicate SafeSince(history: seq<Snapshot>, from: nat, maps: set<Manifests>) {
    forall i :: from <= i < |history| ==> CrashSafe(history[i], maps)
  }

  lemma WidenSafe(d: Snapshot, maps: set<Manifests>, more: set<Manifests>)
    requires CrashSafe(d, maps) && maps <= more
    ensures CrashSafe(d, more)
  {
    hide Covers, Present;
    forall n | d.synced <= n <= |d.entries| ensures Reveals(d.entries[..n], d.files.Keys, more) {
      assert Reveals(d.entries[..n], d.files.Keys, maps);
    }
  }

  lemma WidenSince(history: seq<Snapshot>, from: nat, maps: set<Manifests>, more: set<Manifests>)
    requires SafeSince(history, from, maps) && maps <= more
    ensures SafeSince(history, from, more)
  {
    forall i | from <= i < |history| ensures CrashSafe(history[i], more) {
      WidenSafe(history[i], maps, more);
    }
  }

  lemma JoinSince(history: seq<Snapshot>, from: nat, middle: nat, maps: set<Manifests>)
    requires middle <= |history|
    ensures SafeSince(history[..middle], from, maps) && SafeSince(history, middle, maps) ==>
              SafeSince(history, from, maps)
  {
    hide CrashSafe;
    if SafeSince(history[..middle], from, maps) && SafeSince(history, middle, maps) {
      forall i | from <= i < |history| ensures CrashSafe(history[i], maps) {
        if i < middle { assert history[..middle][i] == history[i]; }
      }
    }
  }

  /** What was recorded before and what was recorded since, taken together. */
  lemma LongerSince(before: seq<Snapshot>, history: seq<Snapshot>, from: nat,
                    maps: set<Manifests>, more: set<Manifests>, all: set<Manifests>)
    requires before <= history && SafeSince(before, from, maps) && SafeSince(history, |before|, more)
    requires maps <= all && more <= all
    ensures SafeSince(history, from, all)
  {
    hide CrashSafe;
    WidenSince(before, from, maps, all);
    WidenSince(history, |before|, more, all);
    assert history[..|before|] == before;
    JoinSince(history, from, |before|, all);
  }

  /** A fully synced log has only one possible outcome. */
  lemma SyncedSafe(d: Snapshot, maps: set<Manifests>)
    requires d.synced == |d.entries| && Reveals(d.entries, d.files.Keys, maps)
    ensures CrashSafe(d, maps)
  {
    hide Reveals;
    assert d.entries[..|d.entries|] == d.entries;
  }

  /** Syncing more of the log only narrows what a crash may reveal. */
  lemma LaterSyncSafe(d: Snapshot, d': Snapshot, maps: set<Manifests>)
    requires CrashSafe(d, maps) && d'.entries == d.entries && d'.files == d.files
    requires d.synced <= d'.synced <= |d.entries|
    ensures CrashSafe(d', maps)
  {
    hide Reveals;
  }

  /** One more unsynced entry keeps a disk crash safe if the state it leads to is
      acceptable; so does a new chunk file. */
  lemma AppendSafe(d: Snapshot, d': Snapshot, maps: set<Manifests>)
    requires CrashSafe(d, maps) && d'.synced == d.synced
    requires |d'.entries| == |d.entries| + 1 && d'.entries[..|d.entries|] == d.entries
    requires d.files.Keys <= d'.files.Keys
    requires Reveals(d'.entries, d'.files.Keys, maps)
    ensures CrashSafe(d', maps)
  {
    hide Covers;
    forall n | d'.synced <= n <= |d'.entries| ensures Reveals(d'.entries[..n], d'.files.Keys, maps) {
      if n <= |d.entries| {
        assert d'.entries[..n] == d.entries[..n];
        assert Reveals(d.entries[..n], d.files.Keys, maps);
      } else {
        assert d'.entries[..n] == d'.entries;
      }
    }
  }

  /** Chunk files may come and go as long as the visible objects keep theirs. */
  lemma FilesSafe(d: Snapshot, d': Snapshot, m: Manifests)
    requires CrashSafe(d, {m}) && d'.synced == d.synced && d'.entries == d.entries
    requires Present(m, d'.files.Keys)
    ensures CrashSafe(d', {m})
  {
    hide Covers;
    forall n | d'.synced <= n <= |d'.entries| ensures Reveals(d'.entries[..n], d'.files.Keys, {m}) {
      assert Reveals(d.entries[..n], d.files.Keys, {m});
    }
  }

  lemma SafeNow(d: Snapshot, m: Manifests)
    requires CrashSafe(d, {m})
    ensures Present(m, d.files.Keys)
  {
    hide Covers, Present, Replay;
    var n := |d.entries|;
    assert Reveals(d.entries[..n], d.files.Keys, {m});
  }

  /** A file may go when its chunk is no longer tracked. */
  lemma StillPresent(s: IndexState, files: set<ChunkId>, id: ChunkId)
    requires Covers(s) && Present(s.manifests, files)
    ensures Present(s.manifests, if id in s.locations then files else files - {id})
  {
    forall k, x | k in s.manifests && x in s.manifests[k].chunks ensures x in s.locations {
      OccursWhenListed(Lists(s.manifests), k, x);
      assert Occurrences(Lists(s.manifests))[x] <= RefCount(s.locations, x);
    }
  }

  /** While a manifest entry is appended, synced and perhaps compacted away, a
      crash reveals the key map from before or after it. */
  lemma CommitSafe(d: Snapshot, before: Snapshot, e: LogEntry, state: IndexState, m: Manifests)
    requires CrashSafe(before, {m}) && Index.AppendStep(d, before, e, state)
    requires Replay(before.entries + [e]) == state
    requires Covers(state) && Present(state.manifests, before.files.Keys)
    ensures CrashSafe(d, {m, state.manifests})
  {
    hide Covers, Present;
    var maps := {m, state.manifests};
    if d.synced == |d.entries| && Replay(d.entries) == state {
      SyncedSafe(d, maps);
    } else {
      WidenSafe(before, {m}, maps);
      assert d.entries[..|before.entries|] == before.entries;
      AppendSafe(before, d, maps);
    }
  }

  /** A disk whose log, as it stands, replays to counts below the occurrences, or
      to a foreign key map, is not crash safe. */
  lemma Exposed(d: Snapshot, maps: set<Manifests>)
    requires var s := Replay(d.entries); !Covers(s) || s.manifests !in maps
    ensures !CrashSafe(d, maps)
  {
    hide Replay, Covers, Present;
    var n := |d.entries|;
    assert d.entries[..n] == d.entries;
    assert !Reveals(d.entries[..n], d.files.Keys, maps);
  }

  /** From any byte cut that keeps the synced prefix, reopening succeeds unless
      the cut tears a multi-byte character, and reveals one of `maps` with all
      its chunk files and sufficient counts. */
  lemma CrashThenReplay(codec: Codec<LogEntry>, d: Snapshot, k: nat, maps: set<Manifests>)
    requires Good(codec) && CrashSafe(d, maps)
    requires |Render(codec, d.entries[..d.synced])| <= k <= |Render(codec, d.entries)|
    ensures var tail := Tail(codec, d.entries, k);
            var r := Parse(codec, Render(codec, d.entries)[..k]);
            && (tail == [] || codec.utf8(tail) ==> r.Ok?)
            && (r.Ok? ==> Reveals(r.value.entries, d.files.Keys, maps))
  {
    hide Reveals, Parse, Render, Tail, WholeLines;
    TornLog(codec, d.entries, k);
    CleanCut(codec, d.entries, d.synced, k);
    assert Reveals(d.entries[..Complete(codec, d.entries, k)], d.files.Keys, maps);
  }
}
