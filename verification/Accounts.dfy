/** The books the engine keeps: each reference count against the manifests and
    the sessions that account for it, each needed chunk against its file. */
module Accounts {
  import opened Bytes
  import opened Types
  import opened IndexModel
  import opened Refs
  import opened Recovery

  /** References of sessions that died with an earlier process. */
  type Leaked = map<ChunkId, nat>

  ghost function Leak(leaked: Leaked, id: ChunkId): nat {
    if id in leaked then leaked[id] else 0
  }

  /** Each reference count is exactly the occurrences in `m`, plus what open
      sessions and pending releases hold, plus what was leaked before opening. */
  ghost predicate Balanced(l: Locations, m: Manifests, held: seq<multiset<ChunkId>>, leaked: Leaked) {
    && Positive(l)
    && forall id :: RefCount(l, id) == Occurrences(Lists(m))[id] + Sum(held)[id] + Leak(leaked, id)
  }

  ghost predicate Needed(m: Manifests, held: seq<multiset<ChunkId>>, id: ChunkId) {
    id in Occurrences(Lists(m)) || id in Sum(held)
  }

  /** Each chunk a manifest lists or a session holds has its file. */
  ghost predicate Backed(m: Manifests, held: seq<multiset<ChunkId>>, files: set<ChunkId>) {
    forall id :: Needed(m, held, id) ==> id in files
  }

  /** A chunk is tracked exactly when some manifest lists it, some session holds
      it, or it was leaked. */
  lemma TrackedIff(l: Locations, m: Manifests, held: seq<multiset<ChunkId>>, leaked: Leaked, id: ChunkId)
    requires Balanced(l, m, held, leaked)
    ensures id in l <==> (exists k :: k in m && id in m[k].chunks) || id in Sum(held) || Leak(leaked, id) > 0
  {
    assert RefCount(l, id) == Occurrences(Lists(m))[id] + Sum(held)[id] + Leak(leaked, id);
    if id in Occurrences(Lists(m)) {
      ListedWhenOccurs(Lists(m), id);
      var k :| k in Lists(m) && id in Lists(m)[k];
      assert k in m && id in m[k].chunks;
    }
    forall k | k in m && id in m[k].chunks ensures id in Occurrences(Lists(m)) {
      OccursWhenListed(Lists(m), k, id);
    }
  }

  lemma BalancedCovers(l: Locations, m: Manifests, held: seq<multiset<ChunkId>>, leaked: Leaked)
    requires Balanced(l, m, held, leaked)
    ensures Covers(IndexState(m, l))
  {
  }

  lemma BackedPresent(m: Manifests, held: seq<multiset<ChunkId>>, files: set<ChunkId>)
    requires Backed(m, held, files)
    ensures Present(m, files)
  {
    forall k, id | k in m && id in m[k].chunks ensures id in files {
      OccursWhenListed(Lists(m), k, id);
      assert Needed(m, held, id);
    }
  }

  /** Taking a reference for the holder at `slot`. */
  lemma TakeOne(l: Locations, m: Manifests, held: seq<multiset<ChunkId>>, leaked: Leaked,
                files: set<ChunkId>, slot: nat, id: ChunkId, path: Bytes)
    requires Balanced(l, m, held, leaked) && Backed(m, held, files) && slot < |held|
    ensures var held' := held[slot := held[slot] + multiset{id}];
            && Balanced(AddRef(l, id, path), m, held', leaked)
            && Backed(m, held', files + {id})
  {
    hide AddRef, RefCount, Occurrences, Sum, Lists;
    var held' := held[slot := held[slot] + multiset{id}];
    AddRefCount(l, id, path);
    SumUpdate(held, slot, held[slot] + multiset{id});
    forall x | Needed(m, held', x) ensures x in files + {id} {
      assert x == id || Needed(m, held, x);
    }
  }

  /** Giving up a reference of the holder at `slot`: the entry exists, and it
      goes away exactly with the last reference. The file can go with it. */
  lemma DropOne(l: Locations, m: Manifests, held: seq<multiset<ChunkId>>, leaked: Leaked,
                files: set<ChunkId>, slot: nat, id: ChunkId)
    requires Balanced(l, m, held, leaked) && Backed(m, held, files) && slot < |held| && id in held[slot]
    ensures id in l
    ensures var held' := held[slot := held[slot] - multiset{id}];
            && Balanced(DropRef(l, id), m, held', leaked)
            && Backed(m, held', if id in DropRef(l, id) then files else files - {id})
  {
    hide DropRef, Positive, Occurrences, Sum, Lists;
    var held' := held[slot := held[slot] - multiset{id}];
    SumUpdate(held, slot, held[slot] - multiset{id});
    assert RefCount(l, id) == Occurrences(Lists(m))[id] + Sum(held)[id] + Leak(leaked, id);
    DropRefCount(l, id);
    forall x | Needed(m, held', x) ensures x in (if id in DropRef(l, id) then files else files - {id}) {
      assert Needed(m, held, x);
      assert RefCount(DropRef(l, id), x) == Occurrences(Lists(m))[x] + Sum(held')[x] + Leak(leaked, x);
    }
  }

  lemma ListsPut(m: Manifests, k: Key, x: Manifest)
    ensures Lists(m[k := x]) == Lists(m)[k := x.chunks]
    ensures Lists(m - {k}) == Lists(m) - {k}
  {
  }

  /** Moving references from a holder to the manifest of a key: the manifest it
      replaces, if any, leaves its references with the holder. */
  lemma Exchange(l: Locations, m: Manifests, held: seq<multiset<ChunkId>>, leaked: Leaked,
                 files: set<ChunkId>, slot: nat, x: Manifest)
    requires Balanced(l, m, held, leaked) && Backed(m, held, files)
    requires slot < |held| && held[slot] == multiset(x.chunks)
    ensures var old' := if x.key in m then multiset(m[x.key].chunks) else multiset{};
            && Balanced(l, m[x.key := x], held[slot := old'], leaked)
            && Backed(m[x.key := x], held[slot := old'], files)
  {
    hide Positive, RefCount, Occurrences;
    var old' := if x.key in m then multiset(m[x.key].chunks) else multiset{};
    var m', held' := m[x.key := x], held[slot := old'];
    ListsPut(m, x.key, x);
    OccurrencesPut(Lists(m), x.key, x.chunks);
    OccurrencesDelete(Lists(m), x.key);
    SumUpdate(held, slot, old');
    assert forall id :: Occurrences(Lists(m'))[id] + Sum(held')[id] == Occurrences(Lists(m))[id] + Sum(held)[id];
    forall id | Needed(m', held', id) ensures id in files {
      assert Occurrences(Lists(m'))[id] + Sum(held')[id] == Occurrences(Lists(m))[id] + Sum(held)[id];
      assert Needed(m, held, id);
    }
  }

  /** Taking a manifest out leaves its references with a new holder. */
  lemma Detach(l: Locations, m: Manifests, held: seq<multiset<ChunkId>>, leaked: Leaked,
               files: set<ChunkId>, k: Key)
    requires Balanced(l, m, held, leaked) && Backed(m, held, files) && k in m
    ensures var held' := held + [multiset(m[k].chunks)];
            && Balanced(l, m - {k}, held', leaked)
            && Backed(m - {k}, held', files)
  {
    hide Positive, RefCount, Occurrences;
    var m', held' := m - {k}, held + [multiset(m[k].chunks)];
    ListsPut(m, k, m[k]);
    OccurrencesOf(Lists(m), k);
    SumSnoc(held, multiset(m[k].chunks));
    forall id | Needed(m', held', id) ensures id in files {
      assert Occurrences(Lists(m'))[id] + Sum(held')[id] == Occurrences(Lists(m))[id] + Sum(held)[id];
      assert Needed(m, held, id);
    }
  }

  /** A holder with nothing left can be forgotten. */
  lemma ForgetLast(l: Locations, m: Manifests, held: seq<multiset<ChunkId>>, leaked: Leaked, files: set<ChunkId>)
    requires Balanced(l, m, held, leaked) && Backed(m, held, files)
    requires held != [] && held[|held| - 1] == multiset{}
    ensures Balanced(l, m, held[..|held| - 1], leaked) && Backed(m, held[..|held| - 1], files)
  {
    hide Positive, RefCount, Occurrences;
    var held' := held[..|held| - 1];
    assert Sum(held) == Sum(held');
    forall id | Needed(m, held', id) ensures id in files { assert Needed(m, held, id); }
  }

  lemma OpenSlot(l: Locations, m: Manifests, held: seq<multiset<ChunkId>>, leaked: Leaked, files: set<ChunkId>)
    requires Balanced(l, m, held, leaked) && Backed(m, held, files)
    ensures Balanced(l, m, held + [multiset{}], leaked) && Backed(m, held + [multiset{}], files)
  {
    hide Positive, RefCount, Occurrences;
    SumSnoc(held, multiset{});
    assert Sum(held + [multiset{}]) == Sum(held);
    forall id | Needed(m, held + [multiset{}], id) ensures id in files { assert Needed(m, held, id); }
  }

  /** Moving a manifest to a new key changes no count. */
  lemma MoveKey(l: Locations, m: Manifests, held: seq<multiset<ChunkId>>, leaked: Leaked,
                files: set<ChunkId>, from: Key, x: Manifest)
    requires Balanced(l, m, held, leaked) && Backed(m, held, files)
    requires from in m && x.key !in m && x.chunks == m[from].chunks
    ensures Balanced(l, m[x.key := x] - {from}, held, leaked)
    ensures Backed(m[x.key := x] - {from}, held, files)
  {
    hide Positive, RefCount, Occurrences, Sum, Lists;
    var m' := m[x.key := x] - {from};
    ListsPut(m, x.key, x);
    ListsPut(m[x.key := x], from, x);
    ListsAt(m, from);
    ListsAt(m, x.key);
    MoveOccurrences(Lists(m), from, x.key);
    assert Lists(m') == Lists(m)[x.key := x.chunks] - {from};
    forall id | Needed(m', held, id) ensures id in files { assert Needed(m, held, id); }
  }

  lemma ListsAt(m: Manifests, k: Key)
    ensures k in Lists(m) <==> k in m
    ensures k in m ==> Lists(m)[k] == m[k].chunks
  {
  }

  lemma MoveOccurrences(c: ChunkLists, from: Key, to: Key)
    requires from in c && to !in c
    ensures Occurrences(c[to := c[from]] - {from}) == Occurrences(c)
  {
    hide Occurrences;
    var x, both := c[from], c[to := c[from]];
    var moved := both - {from};
    OccurrencesPut(c, to, x);
    assert c - {to} == c;
    assert Occurrences(both) == multiset(x) + Occurrences(c);
    OccurrencesOf(both, from);
    assert Occurrences(both) == multiset(x) + Occurrences(moved);
    assert forall id :: Occurrences(both)[id] == multiset(x)[id] + Occurrences(moved)[id];
    assert forall id :: Occurrences(both)[id] == multiset(x)[id] + Occurrences(c)[id];
    assert Occurrences(moved) == Occurrences(c);
  }

  /** Any recovered or replayed state balances once the excess is written off. */
  ghost function Excess(s: IndexState): Leaked
    requires Covers(s)
  {
    map id | id in s.locations ::
      RefCount(s.locations, id) - Occurrences(Lists(s.manifests))[id]
  }

  lemma OpenBooks(s: IndexState, files: set<ChunkId>)
    requires Covers(s) && Present(s.manifests, files)
    ensures Balanced(s.locations, s.manifests, [], Excess(s)) && Backed(s.manifests, [], files)
  {
    forall id ensures RefCount(s.locations, id) ==
                      Occurrences(Lists(s.manifests))[id] + Sum([])[id] + Leak(Excess(s), id)
    {
      assert Occurrences(Lists(s.manifests))[id] <= RefCount(s.locations, id);
    }
    forall id | Needed(s.manifests, [], id) ensures id in files {
      ListedWhenOccurs(Lists(s.manifests), id);
      var k :| k in Lists(s.manifests) && id in Lists(s.manifests)[k];
      assert k in s.manifests && id in s.manifests[k].chunks;
    }
  }

  /** The references that the books for `m` account for suffice for `visible`. */
  ghost predicate Spare(visible: Manifests, m: Manifests, held: seq<multiset<ChunkId>>, leaked: Leaked) {
    forall id :: Occurrences(Lists(visible))[id] <= Occurrences(Lists(m))[id] + Sum(held)[id] + Leak(leaked, id)
  }

  lemma SpareCovers(l: Locations, visible: Manifests, m: Manifests, held: seq<multiset<ChunkId>>, leaked: Leaked,
                    slot: nat)
    requires Balanced(l, m, held, leaked) && slot < |held|
    requires visible == m || Spare(visible, m, held[slot := multiset{}], leaked)
    ensures Covers(IndexState(visible, l))
  {
    hide Positive, RefCount, Occurrences, Sum, Lists;
    SumUpdate(held, slot, multiset{});
    forall id ensures Occurrences(Lists(visible))[id] <= RefCount(l, id) {
      assert RefCount(l, id) == Occurrences(Lists(m))[id] + Sum(held)[id] + Leak(leaked, id);
    }
  }

  /** Dropping every reference the manifest of `k` has, while it is still
      listed, leaves every count at or above the occurrences. */
  ghost predicate Redundant(l: Locations, m: Manifests, k: Key)
    requires k in m
  {
    forall id :: multiset(m[k].chunks)[id] + Occurrences(Lists(m))[id] <= RefCount(l, id)
  }

  lemma SpareIff(l: Locations, m: Manifests, k: Key, held: seq<multiset<ChunkId>>, leaked: Leaked)
    requires k in m && Balanced(l, m, held, leaked)
    ensures Spare(m, m - {k}, held, leaked) <==> Redundant(l, m, k)
    ensures Spare(m, m - {k}, held + [multiset{}], leaked) <==> Redundant(l, m, k)
  {
    hide Occurrences, Sum, Positive, RefCount;
    ListsPut(m, k, m[k]);
    ListsAt(m, k);
    OccurrencesOf(Lists(m), k);
    SumSnoc(held, multiset{});
    assert forall id :: Sum(held + [multiset{}])[id] == Sum(held)[id];
    assert forall id :: Occurrences(Lists(m))[id] == multiset(m[k].chunks)[id] + Occurrences(Lists(m - {k}))[id];
    assert forall id :: RefCount(l, id) == Occurrences(Lists(m))[id] + Sum(held)[id] + Leak(leaked, id);
  }

  /** If the references that remain do not suffice, some count falls below the
      occurrences. */
  lemma TooFew(l: Locations, visible: Manifests, m: Manifests, held: seq<multiset<ChunkId>>, leaked: Leaked)
    requires Balanced(l, m, held, leaked) && !Spare(visible, m, held, leaked)
    ensures !Covers(IndexState(visible, l))
  {
    hide Positive, RefCount, Occurrences, Sum, Lists;
    var id :| Occurrences(Lists(visible))[id] > Occurrences(Lists(m))[id] + Sum(held)[id] + Leak(leaked, id);
    assert RefCount(l, id) == Occurrences(Lists(m))[id] + Sum(held)[id] + Leak(leaked, id);
  }

  /** The files left when the chunks of `ids` that are no longer tracked lose
      theirs. */
  ghost function Reclaim(files: set<ChunkId>, ids: seq<ChunkId>, l: Locations): set<ChunkId> {
    files - (set id | id in ids && id !in l)
  }

  lemma ReclaimKeeps(files: set<ChunkId>, ids: seq<ChunkId>, l: Locations)
    ensures files * l.Keys <= Reclaim(files, ids, l)
  {
  }

  lemma ReclaimStep(files: set<ChunkId>, ids: seq<ChunkId>, l: Locations, id: ChunkId)
    ensures Reclaim(files, [], l) == files
    ensures Reclaim(files, ids + [id], DropRef(l, id)) ==
            Reclaim(files, ids, l) - if id in DropRef(l, id) then {} else {id}
  {
  }
}
