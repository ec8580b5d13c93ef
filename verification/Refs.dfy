/** Counting chunk references with multiplicity: over all manifests and over a
    list of holders. */
module Refs {
  import opened Types

  /** For each key, the chunk list of its manifest. */
  type ChunkLists = map<Key, seq<ChunkId>>

  /** All chunk occurrences in all manifests. */
  ghost function Occurrences(m: ChunkLists): multiset<ChunkId>
    decreases |m|
  {
    if m == map[] then multiset{}
    else
      var k :| k in m;
      multiset(m[k]) + Occurrences(m - {k})
  }

  lemma {:induction false} OccurrencesOf(m: ChunkLists, k: Key)
    requires k in m
    ensures Occurrences(m) == multiset(m[k]) + Occurrences(m - {k})
    decreases |m|
  {
    var j :| j in m && Occurrences(m) == multiset(m[j]) + Occurrences(m - {j});
    if j != k {
      OccurrencesOf(m - {j}, k);
      OccurrencesOf(m - {k}, j);
      assert m - {j} - {k} == m - {k} - {j};
    }
  }

  lemma OccurrencesPut(m: ChunkLists, k: Key, chunks: seq<ChunkId>)
    ensures Occurrences(m[k := chunks]) == multiset(chunks) + Occurrences(m - {k})
  {
    OccurrencesOf(m[k := chunks], k);
    assert m[k := chunks] - {k} == m - {k};
  }

  lemma OccurrencesDelete(m: ChunkLists, k: Key)
    ensures k in m ==> Occurrences(m) == multiset(m[k]) + Occurrences(m - {k})
    ensures k !in m ==> m - {k} == m
  {
    if k in m { OccurrencesOf(m, k); } else { assert m - {k} == m; }
  }

  lemma OccursWhenListed(m: ChunkLists, k: Key, id: ChunkId)
    requires k in m && id in m[k]
    ensures Occurrences(m)[id] >= multiset(m[k])[id] >= 1
  {
    OccurrencesOf(m, k);
  }

  /** Something that occurs is listed somewhere. */
  lemma {:induction false} ListedWhenOccurs(m: ChunkLists, id: ChunkId)
    requires id in Occurrences(m)
    ensures exists k :: k in m && id in m[k]
    decreases |m|
  {
    var j :| j in m && Occurrences(m) == multiset(m[j]) + Occurrences(m - {j});
    if id !in m[j] {
      ListedWhenOccurs(m - {j}, id);
      var k :| k in m - {j} && id in (m - {j})[k];
      assert k in m && id in m[k];
    }
  }

  // ---- holders ----

  /** All references held by a list of holders. */
  ghost function Sum(held: seq<multiset<ChunkId>>): multiset<ChunkId> {
    if held == [] then multiset{} else Sum(held[..|held| - 1]) + held[|held| - 1]
  }

  lemma SumSnoc(held: seq<multiset<ChunkId>>, x: multiset<ChunkId>)
    ensures Sum(held + [x]) == Sum(held) + x
  {
    assert (held + [x])[..|held|] == held;
  }

  lemma {:induction false} SumUpdate(held: seq<multiset<ChunkId>>, i: nat, x: multiset<ChunkId>)
    requires i < |held|
    ensures forall id :: Sum(held[i := x])[id] + held[i][id] == Sum(held)[id] + x[id]
    ensures forall id :: held[i][id] <= Sum(held)[id]
  {
    var last := |held| - 1;
    if i < last {
      SumUpdate(held[..last], i, x);
      assert held[i := x][..last] == held[..last][i := x] && held[..last][i] == held[i];
      assert held[i := x][last] == held[last];
    } else {
      assert held[i := x][..last] == held[..last];
    }
  }

  lemma {:induction false} SumHolds(held: seq<multiset<ChunkId>>, id: ChunkId)
    ensures id in Sum(held) <==> exists i :: 0 <= i < |held| && id in held[i]
  {
    if held != [] {
      var n := |held| - 1;
      SumHolds(held[..n], id);
      if i :| 0 <= i < |held| && id in held[i] && i < n { assert id in held[..n][i]; }
      if id in Sum(held[..n]) {
        var i :| 0 <= i < n && id in held[..n][i];
        assert id in held[i];
      }
    }
  }

  /** Debits, each covered by a manifest of its own, are covered together. */
  lemma {:induction false} CoveredSum(m: ChunkLists, debits: seq<multiset<ChunkId>>, keys: seq<Option<Key>>)
    requires |keys| == |debits|
    requires forall i :: 0 <= i < |keys| ==>
      if keys[i] == None then debits[i] == multiset{}
      else keys[i].value in m && debits[i] <= multiset(m[keys[i].value])
    requires forall i, j :: 0 <= i < j < |keys| && keys[i].Some? ==> keys[i] != keys[j]
    ensures forall id :: Sum(debits)[id] <= Occurrences(m)[id]
  {
    if debits != [] {
      hide Occurrences;
      var n := |debits| - 1;
      var front, rest := debits[..n], keys[..n];
      if keys[n] == None {
        CoveredSum(m, front, rest);
      } else {
        var k := keys[n].value;
        var m' := m - {k};
        forall i | 0 <= i < n && rest[i].Some? ensures rest[i].value in m' && m'[rest[i].value] == m[rest[i].value] {
          assert keys[i] != keys[n];
        }
        CoveredSum(m', front, rest);
        OccurrencesOf(m, k);
      }
    }
  }
}
