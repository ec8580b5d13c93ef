/** The state the write-ahead log stands for, and the specification of the
    listing, replay and reference-count operations of index.rs. */
module IndexModel {
  import opened Bytes
  import opened Types

  type Manifests = map<Key, Manifest>
  type Locations = map<ChunkId, ChunkLocation>

  datatype IndexState = IndexState(manifests: Manifests, locations: Locations)

  const EMPTY := IndexState(map[], map[])

  /** `apply_entry`. */
  function Apply(s: IndexState, e: LogEntry): IndexState {
    match e
    case PutManifest(m) => s.(manifests := s.manifests[m.key := m])
    case DeleteManifest(k) => s.(manifests := s.manifests - {k})
    case PutChunkLocation(id, loc) => s.(locations := s.locations[id := loc])
    case DeleteChunkLocation(id) => s.(locations := s.locations - {id})
  }

  /** The state rebuilt from a log. */
  function Replay(es: seq<LogEntry>): IndexState {
    if es == [] then EMPTY else Apply(Replay(es[..|es| - 1]), es[|es| - 1])
  }

  lemma ReplaySnoc(es: seq<LogEntry>, e: LogEntry)
    ensures Replay(es + [e]) == Apply(Replay(es), e)
  {
    assert (es + [e])[..|es|] == es;
  }

  ghost predicate WellKeyed(m: Manifests) {
    forall k :: k in m ==> m[k].key == k
  }

  lemma {:induction false} ReplayWellKeyed(es: seq<LogEntry>)
    ensures WellKeyed(Replay(es).manifests)
  {
    if es != [] { ReplayWellKeyed(es[..|es| - 1]); }
  }

  // ---- compaction ----

  /** What compaction writes for the first `n` manifests, in key order. */
  function ManifestEntries(m: Manifests, ks: seq<Key>): (es: seq<LogEntry>)
    requires forall k :: k in ks ==> k in m
    ensures |es| == |ks|
  {
    if ks == [] then []
    else ManifestEntries(m, ks[..|ks| - 1]) + [PutManifest(m[ks[|ks| - 1]])]
  }

  function LocationEntries(l: Locations, ids: seq<ChunkId>): (es: seq<LogEntry>)
    requires forall id :: id in ids ==> id in l
    ensures |es| == |ids|
  {
    if ids == [] then []
    else LocationEntries(l, ids[..|ids| - 1]) + [PutChunkLocation(ids[|ids| - 1], l[ids[|ids| - 1]])]
  }

  lemma InElements(ks: seq<Key>, s: set<Key>)
    requires Elements(ks) == s
    ensures forall k :: k in ks <==> k in s
  {
    forall k ensures k in ks <==> k in s { assert k in ks <==> k in Elements(ks); }
  }

  /** The live entries of a state: every manifest, then every chunk location. */
  function LiveEntries(s: IndexState): seq<LogEntry> {
    InElements(SortedKeys(s.manifests.Keys), s.manifests.Keys);
    InElements(SortedKeys(s.locations.Keys), s.locations.Keys);
    ManifestEntries(s.manifests, SortedKeys(s.manifests.Keys))
    + LocationEntries(s.locations, SortedKeys(s.locations.Keys))
  }

  /** Replay of further entries on top of a state. */
  function ApplyAll(s: IndexState, es: seq<LogEntry>): IndexState {
    if es == [] then s else Apply(ApplyAll(s, es[..|es| - 1]), es[|es| - 1])
  }

  lemma ApplyAllSnoc(s: IndexState, es: seq<LogEntry>, e: LogEntry)
    ensures ApplyAll(s, es + [e]) == Apply(ApplyAll(s, es), e)
  {
    assert (es + [e])[..|es|] == es;
  }

  lemma {:induction false} ReplayAppend(a: seq<LogEntry>, b: seq<LogEntry>)
    ensures Replay(a + b) == ApplyAll(Replay(a), b)
  {
    if b == [] {
      assert a + b == a;
    } else {
      var front, last := b[..|b| - 1], b[|b| - 1];
      ReplayAppend(a, front);
      ReplaySnoc(a + front, last);
      assert a + b == (a + front) + [last];
    }
  }

  ghost function Restrict<V>(m: map<Bytes, V>, ks: seq<Bytes>): map<Bytes, V>
    requires forall k :: k in ks ==> k in m
  {
    map k | k in ks :: m[k]
  }

  lemma RestrictSnoc<V>(m: map<Bytes, V>, ks: seq<Bytes>, k: Bytes)
    requires k in m && forall x :: x in ks ==> x in m
    ensures forall x :: x in ks + [k] ==> x in m
    ensures Restrict(m, ks)[k := m[k]] == Restrict(m, ks + [k])
  {
  }

  lemma {:induction false} ApplyManifests(m: Manifests, ks: seq<Key>)
    requires WellKeyed(m) && forall k :: k in ks ==> k in m
    ensures ApplyAll(EMPTY, ManifestEntries(m, ks)) == IndexState(Restrict(m, ks), map[])
  {
    if ks != [] {
      hide Restrict;
      var front, last := ks[..|ks| - 1], ks[|ks| - 1];
      assert ks == front + [last];
      ApplyManifests(m, front);
      ApplyAllSnoc(EMPTY, ManifestEntries(m, front), PutManifest(m[last]));
      RestrictSnoc(m, front, last);
    }
  }

  lemma {:induction false} ApplyLocations(m: Manifests, l: Locations, ids: seq<ChunkId>)
    requires forall id :: id in ids ==> id in l
    ensures ApplyAll(IndexState(m, map[]), LocationEntries(l, ids)) == IndexState(m, Restrict(l, ids))
  {
    if ids != [] {
      hide Restrict;
      var front, last := ids[..|ids| - 1], ids[|ids| - 1];
      assert ids == front + [last];
      ApplyLocations(m, l, front);
      ApplyAllSnoc(IndexState(m, map[]), LocationEntries(l, front), PutChunkLocation(last, l[last]));
      RestrictSnoc(l, front, last);
    }
  }

  /** A compacted log rebuilds the same state, with one entry a live item. */
  lemma ReplayLive(s: IndexState)
    requires WellKeyed(s.manifests)
    ensures Replay(LiveEntries(s)) == s
    ensures |LiveEntries(s)| == |s.manifests| + |s.locations|
  {
    var ks, ids := SortedKeys(s.manifests.Keys), SortedKeys(s.locations.Keys);
    InElements(ks, s.manifests.Keys);
    InElements(ids, s.locations.Keys);
    ReplayBoth(s, ks, ids);
  }

  lemma ReplayBoth(s: IndexState, ks: seq<Key>, ids: seq<ChunkId>)
    requires WellKeyed(s.manifests)
    requires forall k :: k in ks <==> k in s.manifests.Keys
    requires forall id :: id in ids <==> id in s.locations.Keys
    ensures Replay(ManifestEntries(s.manifests, ks) + LocationEntries(s.locations, ids)) == s
  {
    hide Apply, Restrict, ManifestEntries, LocationEntries, ApplyAll, WellKeyed;
    RestrictAll(s.manifests, ks);
    RestrictAll(s.locations, ids);
    ApplyManifests(s.manifests, ks);
    ApplyLocations(s.manifests, s.locations, ids);
    var a, b := ManifestEntries(s.manifests, ks), LocationEntries(s.locations, ids);
    ReplayAppend([], a);
    assert [] + a == a;
    ReplayAppend(a, b);
  }

  lemma RestrictAll<V>(m: map<Bytes, V>, ks: seq<Bytes>)
    requires forall k :: k in ks <==> k in m.Keys
    ensures Restrict(m, ks) == m
  {
  }

  // ---- reference counts ----

  /** The reference count of a chunk; an untracked chunk has none. */
  function RefCount(l: Locations, id: ChunkId): nat {
    if id in l then l[id].refCount else 0
  }

  /** `add_chunk_ref`: create at one, otherwise increment. */
  function AddRef(l: Locations, id: ChunkId, path: Bytes): Locations {
    l[id := if id in l then l[id].(refCount := l[id].refCount + 1) else ChunkLocation(path, 1)]
  }

  /** `decrement_chunk_ref`: an entry at one (or less) is removed. */
  function DropRef(l: Locations, id: ChunkId): Locations {
    if id !in l then l
    else if l[id].refCount <= 1 then l - {id}
    else l[id := l[id].(refCount := l[id].refCount - 1)]
  }

  function AddRefs(l: Locations, ids: seq<ChunkId>, path: ChunkId -> Bytes): Locations {
    if ids == [] then l
    else AddRef(AddRefs(l, ids[..|ids| - 1], path), ids[|ids| - 1], path(ids[|ids| - 1]))
  }

  function DropRefs(l: Locations, ids: seq<ChunkId>): Locations {
    if ids == [] then l else DropRef(DropRefs(l, ids[..|ids| - 1]), ids[|ids| - 1])
  }

  lemma DropRefsSnoc(l: Locations, ids: seq<ChunkId>, id: ChunkId)
    ensures DropRefs(l, []) == l
    ensures DropRefs(l, ids + [id]) == DropRef(DropRefs(l, ids), id)
  {
    assert (ids + [id])[..|ids|] == ids;
  }

  lemma AddRefsSnoc(l: Locations, ids: seq<ChunkId>, id: ChunkId, path: ChunkId -> Bytes)
    ensures AddRefs(l, [], path) == l
    ensures AddRefs(l, ids + [id], path) == AddRef(AddRefs(l, ids, path), id, path(id))
  {
    assert (ids + [id])[..|ids|] == ids;
  }

  lemma {:induction false} AddRefsAppend(l: Locations, a: seq<ChunkId>, b: seq<ChunkId>, path: ChunkId -> Bytes)
    ensures AddRefs(AddRefs(l, a, path), b, path) == AddRefs(l, a + b, path)
  {
    hide AddRef;
    if b == [] {
      assert a + b == a;
    } else {
      var front, last := b[..|b| - 1], b[|b| - 1];
      AddRefsAppend(l, a, front, path);
      AddRefsSnoc(l, a + front, last, path);
      assert a + b == (a + front) + [last];
    }
  }

  /** Every tracked chunk has at least one reference. */
  ghost predicate Positive(l: Locations) {
    forall id :: id in l ==> l[id].refCount >= 1
  }

  lemma AddRefCount(l: Locations, id: ChunkId, path: Bytes)
    requires Positive(l)
    ensures Positive(AddRef(l, id, path))
    ensures forall x :: RefCount(AddRef(l, id, path), x) == RefCount(l, x) + if x == id then 1 else 0
  {
  }

  lemma DropRefCount(l: Locations, id: ChunkId)
    requires Positive(l) && RefCount(l, id) >= 1
    ensures Positive(DropRef(l, id))
    ensures forall x :: RefCount(DropRef(l, id), x) == RefCount(l, x) - if x == id then 1 else 0
  {
  }

  lemma SnocCount(ids: seq<ChunkId>)
    requires ids != []
    ensures forall x :: multiset(ids)[x] == multiset(ids[..|ids| - 1])[x] + if x == ids[|ids| - 1] then 1 else 0
  {
    assert ids == ids[..|ids| - 1] + [ids[|ids| - 1]];
  }

  lemma {:induction false} AddRefsCount(l: Locations, ids: seq<ChunkId>, path: ChunkId -> Bytes)
    requires Positive(l)
    ensures Positive(AddRefs(l, ids, path))
    ensures forall id :: RefCount(AddRefs(l, ids, path), id) == RefCount(l, id) + multiset(ids)[id]
  {
    if ids != [] {
      var front, last := ids[..|ids| - 1], ids[|ids| - 1];
      AddRefsCount(l, front, path);
      SnocCount(ids);
      AddRefCount(AddRefs(l, front, path), last, path(last));
    }
  }

  lemma {:induction false} AddRefsPaths(l: Locations, ids: seq<ChunkId>, path: ChunkId -> Bytes)
    ensures var r := AddRefs(l, ids, path);
            && l.Keys <= r.Keys
            && forall id :: id in r ==> r[id].path == if id in l then l[id].path else path(id)
  {
    if ids != [] { AddRefsPaths(l, ids[..|ids| - 1], path); }
  }

  lemma {:induction false} DropRefsCount(l: Locations, ids: seq<ChunkId>)
    requires Positive(l) && forall id :: multiset(ids)[id] <= RefCount(l, id)
    ensures Positive(DropRefs(l, ids))
    ensures forall id :: RefCount(DropRefs(l, ids), id) == RefCount(l, id) - multiset(ids)[id]
  {
    if ids != [] {
      var front, last := ids[..|ids| - 1], ids[|ids| - 1];
      SnocCount(ids);
      DropRefsCount(l, front);
      DropRefCount(DropRefs(l, front), last);
    }
  }

  lemma {:induction false} DropRefsPaths(l: Locations, ids: seq<ChunkId>)
    ensures var r := DropRefs(l, ids);
            forall id :: id in r ==> id in l && r[id].path == l[id].path
  {
    if ids != [] { DropRefsPaths(l, ids[..|ids| - 1]); }
  }

  /** Taking references and giving them all back, in any order, restores the
      chunk table exactly. */
  lemma DropUndoesAdd(l: Locations, added: seq<ChunkId>, dropped: seq<ChunkId>, path: ChunkId -> Bytes)
    requires Positive(l) && multiset(added) == multiset(dropped)
    ensures DropRefs(AddRefs(l, added, path), dropped) == l
  {
    AddRefsCount(l, added, path);
    DropRefsCount(AddRefs(l, added, path), dropped);
    AddRefsPaths(l, added, path);
    DropRefsPaths(AddRefs(l, added, path), dropped);
    var r := DropRefs(AddRefs(l, added, path), dropped);
    forall id ensures id in r <==> id in l {
      assert RefCount(r, id) == RefCount(l, id);
    }
    forall id | id in l ensures r[id] == l[id] {
      assert RefCount(r, id) == RefCount(l, id);
    }
  }

  // ---- listing ----

  /** The keys a listing from `cursor` may return. */
  ghost function Remaining(keys: set<Key>, prefix: Bytes, cursor: Bytes): set<Key> {
    set k | k in keys && HasPrefix(k, prefix) && (cursor == [] || Less(cursor, k))
  }

  /** A cursor that sorts before the prefix meets a foreign key first, and the
      scan stops there. */
  ghost predicate Blocked(keys: set<Key>, prefix: Bytes, cursor: Bytes) {
    cursor != [] && exists k :: k in keys && Leq(cursor, k) && Less(k, prefix)
  }

  ghost function AtLeastOne(limit: nat): nat {
    if limit == 0 then 1 else limit
  }

  /** The keys of one page. */
  ghost function PageKeys(keys: set<Key>, prefix: Bytes, limit: nat, cursor: Bytes): seq<Key> {
    var all := SortedKeys(Remaining(keys, prefix, cursor));
    if Blocked(keys, prefix, cursor) then []
    else if |all| <= AtLeastOne(limit) then all
    else all[..AtLeastOne(limit)]
  }

  /** The cursor returned with a page: its last key, when the page is full. */
  ghost function NextCursor(page: seq<Key>, limit: nat): Option<Key> {
    if |page| == AtLeastOne(limit) then Some(page[|page| - 1]) else None
  }

  /** A page and its cursor, in so many words: keys under the prefix behind the
      cursor, in order; at most `limit` of them, or one for a limit of zero; with a
      cursor, its last key, exactly when there are that many; and no key that could
      still be listed is left out, but those behind a full page, and all of them
      where the scan is blocked. */
  ghost predicate IsPage(keys: set<Key>, prefix: Bytes, limit: nat, cursor: Bytes, page: seq<Key>, next: Option<Key>) {
    && |page| <= (if limit == 0 then 1 else limit)
    && (next.Some? <==> |page| == (if limit == 0 then 1 else limit))
    && (next.Some? ==> page != [] && next.value == page[|page| - 1])
    && (forall i, j :: 0 <= i < j < |page| ==> Less(page[i], page[j]))
    && (forall i :: 0 <= i < |page| ==>
          page[i] in keys && prefix <= page[i] && (cursor == [] || Less(cursor, page[i])))
    && (forall k :: k in keys && k !in page && prefix <= k && (cursor == [] || Less(cursor, k)) ==>
          (next.Some? && Less(next.value, k)) || Blocked(keys, prefix, cursor))
    && (Blocked(keys, prefix, cursor) ==> page == [])
  }

  lemma PageMeans(keys: set<Key>, prefix: Bytes, limit: nat, cursor: Bytes)
    ensures var page := PageKeys(keys, prefix, limit, cursor);
            IsPage(keys, prefix, limit, cursor, page, NextCursor(page, limit))
  {
    hide SortedKeys, Less, Blocked;
    var rest := Remaining(keys, prefix, cursor);
    var all, page := SortedKeys(rest), PageKeys(keys, prefix, limit, cursor);
    InElements(all, rest);
    assert page <= all && forall p :: 0 <= p < |page| ==> all[p] in page;
    forall i | 0 <= i < |page|
      ensures page[i] in keys && prefix <= page[i] && (cursor == [] || Less(cursor, page[i]))
    {
      assert page[i] == all[i] && all[i] in rest;
    }
    forall k | k in keys && k !in page && prefix <= k && (cursor == [] || Less(cursor, k))
      ensures (NextCursor(page, limit).Some? && Less(NextCursor(page, limit).value, k)) || Blocked(keys, prefix, cursor)
    {
      assert k in rest;
      var j :| 0 <= j < |all| && all[j] == k;
      assert j >= |page|;
    }
  }

  /** A sorted list of the least elements of a set is a prefix of its sorted
      enumeration. */
  lemma InitialSegment(a: seq<Key>, s: set<Key>)
    requires StrictlySorted(a) && Elements(a) <= s
    requires forall x, y :: x in a && y in s && y !in a ==> Less(x, y)
    ensures SortedKeys(s) == a + SortedKeys(s - Elements(a))
    ensures |a| <= |s|
  {
    hide SortedKeys, Less;
    SplitSorted(a, SortedKeys(s - Elements(a)), SortedKeys(s), s);
  }

  lemma SplitSorted(a: seq<Key>, b: seq<Key>, all: seq<Key>, s: set<Key>)
    requires StrictlySorted(a) && StrictlySorted(b) && StrictlySorted(all)
    requires Elements(a) <= s && Elements(b) == s - Elements(a) && Elements(all) == s && |all| == |s|
    requires forall x, y :: x in a && y in s && y !in a ==> Less(x, y)
    ensures all == a + b && |a| <= |s|
  {
    InElements(b, s - Elements(a));
    JoinSorted(a, b);
    SortedUnique(all, a + b);
  }

  lemma JoinSorted(a: seq<Key>, b: seq<Key>)
    requires StrictlySorted(a) && StrictlySorted(b)
    requires forall x, y :: x in a && y in b ==> Less(x, y)
    ensures StrictlySorted(a + b)
    ensures Elements(a + b) == Elements(a) + Elements(b)
  {
    forall i, j | 0 <= i < j < |a + b| ensures Less((a + b)[i], (a + b)[j]) {
      if i < |a| && j >= |a| { assert a[i] in a && b[j - |a|] in b; }
    }
  }
}
