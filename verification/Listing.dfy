/** Following listing cursors to the end: the complete walk of the TUI's
    refresh (app.rs), and stream deletion while paginating (streaming.rs). */
module Listing {
  import opened Bytes
  import opened Types
  import opened IndexModel
  import opened Recovery
  import opened Accounts
  import opened Index
  import opened BlobStore
  import opened Engine
  import LogText

  /** Every key under a prefix. */
  ghost function Under(keys: set<Key>, prefix: Bytes): set<Key> {
    set k | k in keys && prefix <= k
  }

  /** A cursor that has the prefix cannot be blocked by a foreign key. */
  lemma NotBlocked(keys: set<Key>, prefix: Bytes, cursor: Bytes)
    requires cursor == [] || HasPrefix(cursor, prefix)
    ensures !Blocked(keys, prefix, cursor)
  {
    if Blocked(keys, prefix, cursor) {
      var k :| k in keys && Leq(cursor, k) && Less(k, prefix);
      PrefixFirst(prefix, cursor);
      if prefix != cursor { LessTransitive(k, prefix, cursor); }
      LessAsymmetric(k, cursor);
      LessIrreflexive(k);
    }
  }

  /** After a full page, exactly the keys of the page have left the remaining
      ones, and the next cursor lies further on. */
  lemma NextPage(keys: set<Key>, prefix: Bytes, limit: nat, cursor: Bytes)
    requires cursor == [] || HasPrefix(cursor, prefix)
    ensures var page := PageKeys(keys, prefix, limit, cursor);
            var rest := Remaining(keys, prefix, cursor);
            && Elements(page) <= rest && StrictlySorted(page)
            && (NextCursor(page, limit) == None ==> page == SortedKeys(rest))
            && (NextCursor(page, limit).Some? ==>
                  var next := NextCursor(page, limit).value;
                  && next in rest && HasPrefix(next, prefix) && (cursor != [] ==> Less(cursor, next))
                  && (next != [] ==> Remaining(keys, prefix, next) == rest - Elements(page))
                  && SortedKeys(rest) == page + SortedKeys(rest - Elements(page)))
  {
    hide SortedKeys, Remaining, Less, Elements, StrictlySorted, HasPrefix, PageKeys;
    var rest, page, n := Remaining(keys, prefix, cursor), PageKeys(keys, prefix, limit, cursor), AtLeastOne(limit);
    var all := SortedKeys(rest);
    PageOf(keys, prefix, limit, cursor);
    if |all| >= n {
      CutSorted(all, n, rest);
      RemainingBeyond(keys, prefix, cursor, all, n);
      InRest(keys, prefix, cursor, all[n - 1]);
      assert page == all[..n] && page[|page| - 1] == all[n - 1];
    }
  }

  /** A page is the beginning of what remains, as long as it is not full. */
  lemma PageOf(keys: set<Key>, prefix: Bytes, limit: nat, cursor: Bytes)
    requires cursor == [] || HasPrefix(cursor, prefix)
    ensures var all := SortedKeys(Remaining(keys, prefix, cursor));
            && PageKeys(keys, prefix, limit, cursor) ==
               (if |all| < AtLeastOne(limit) then all else all[..AtLeastOne(limit)])
            && StrictlySorted(all) && Elements(all) == Remaining(keys, prefix, cursor)
  {
    hide SortedKeys, Remaining, Less, Elements, StrictlySorted, HasPrefix, Blocked;
    NotBlocked(keys, prefix, cursor);
    var all := SortedKeys(Remaining(keys, prefix, cursor));
    assert all[..|all|] == all;
  }

  lemma InRest(keys: set<Key>, prefix: Bytes, cursor: Bytes, k: Key)
    requires k in Remaining(keys, prefix, cursor)
    ensures HasPrefix(k, prefix) && (cursor != [] ==> Less(cursor, k))
  {
    hide Less, HasPrefix;
  }

  lemma CutSorted(all: seq<Key>, n: nat, s: set<Key>)
    requires StrictlySorted(all) && Elements(all) == s && 0 < n <= |all|
    ensures StrictlySorted(all[..n]) && Elements(all[..n]) <= s && all[n - 1] in s
    ensures forall x, y :: x in all[..n] && y in s && y !in all[..n] ==> Less(x, y)
    ensures SortedKeys(s) == all ==> all == all[..n] + SortedKeys(s - Elements(all[..n]))
  {
    hide SortedKeys, Less;
    assert all[n - 1] in Elements(all);
    InElements(all, s);
    forall x, y | x in all[..n] && y in s && y !in all[..n] ensures Less(x, y) {
      OrderAcross(all, n, x, y);
    }
    forall x | x in Elements(all[..n]) ensures x in s { assert x in all; }
    InitialSegment(all[..n], s);
  }

  lemma RemainingBeyond(keys: set<Key>, prefix: Bytes, cursor: Bytes, all: seq<Key>, n: nat)
    requires StrictlySorted(all) && Elements(all) == Remaining(keys, prefix, cursor) && 0 < n <= |all|
    requires forall x, y :: x in all[..n] && y in Remaining(keys, prefix, cursor) && y !in all[..n] ==> Less(x, y)
    ensures all[n - 1] != [] ==>
              Remaining(keys, prefix, all[n - 1]) == Remaining(keys, prefix, cursor) - Elements(all[..n])
  {
    hide Less, StrictlySorted, HasPrefix;
    var last, rest := all[n - 1], Remaining(keys, prefix, cursor);
    assert all[..n][n - 1] == last && last in all[..n];
    assert last in Elements(all);
    NoneBeyondLast(all, n);
    if last != [] {
      forall k ensures k in Remaining(keys, prefix, last) <==> k in rest && k !in Elements(all[..n]) {
        if k in Remaining(keys, prefix, last) && cursor != [] { LessTransitive(cursor, last, k); }
      }
    }
  }

  lemma NoneBeyondLast(all: seq<Key>, n: nat)
    requires StrictlySorted(all) && 0 < n <= |all|
    ensures forall k :: k in all[..n] ==> !Less(all[n - 1], k)
  {
    hide Less;
    forall k | k in all[..n] ensures !Less(all[n - 1], k) {
      var j :| 0 <= j < n && all[..n][j] == k;
      LessAsymmetric(all[n - 1], k);
      LessIrreflexive(k);
      assert j == n - 1 || Less(all[j], all[n - 1]);
    }
  }

  /** Follow `next_cursor` from the start: all manifests under the prefix, in
      key order, each once. A page limit of zero acts as one. */
  method WalkAll(e: StorageEngine, prefix: Bytes, limit: nat) returns (items: seq<Manifest>)
    requires e.Valid()
    ensures KeysOf(items) == SortedKeys(Under(e.index.manifests.Keys, prefix))
    ensures forall i :: 0 <= i < |items| ==>
              items[i].key in e.index.manifests && e.index.manifests[items[i].key] == items[i]
  {
    hide SortedKeys, PageKeys, NextCursor, Remaining, WellKeyed, HasPrefix, Less, Under, KeysOf, StorageEngine.Valid;
    ValidKeys(e);
    ghost var keys := e.index.manifests.Keys;
    var cursor: Bytes := [];
    items := [];
    ghost var target := SortedKeys(Under(keys, prefix));
    WalkStart(keys, prefix);
    while true
      invariant cursor == [] || HasPrefix(cursor, prefix)
      invariant Ahead(keys, prefix, cursor, items, target)
      invariant forall i :: 0 <= i < |items| ==>
                  items[i].key in e.index.manifests && e.index.manifests[items[i].key] == items[i]
      decreases |Remaining(keys, prefix, cursor)|
    {
      var page, next := e.List(prefix, limit, cursor);
      WalkStep(keys, prefix, limit, cursor, items, page, target);
      items := items + page;
      if next == None || next.value == [] || next.value == cursor {
        break;
      }
      cursor := next.value;
    }
  }

  /** The items so far and the remaining keys make up the whole listing. */
  ghost predicate Ahead(keys: set<Key>, prefix: Bytes, cursor: Bytes, items: seq<Manifest>, target: seq<Key>) {
    KeysOf(items) + SortedKeys(Remaining(keys, prefix, cursor)) == target
  }

  lemma WalkStart(keys: set<Key>, prefix: Bytes)
    ensures Ahead(keys, prefix, [], [], SortedKeys(Under(keys, prefix)))
  {
    hide SortedKeys, Remaining, Under;
    RemainingAll(keys, prefix);
    assert KeysOf([]) == [];
  }

  lemma WalkStep(keys: set<Key>, prefix: Bytes, limit: nat, cursor: Bytes, items: seq<Manifest>,
                 page: seq<Manifest>, target: seq<Key>)
    requires [] !in keys && (cursor == [] || HasPrefix(cursor, prefix))
    requires Ahead(keys, prefix, cursor, items, target)
    requires KeysOf(page) == PageKeys(keys, prefix, limit, cursor)
    ensures match NextCursor(KeysOf(page), limit)
            case None => KeysOf(items + page) == target
            case Some(next) =>
              && next != [] && next != cursor && HasPrefix(next, prefix)
              && Ahead(keys, prefix, next, items + page, target)
              && |Remaining(keys, prefix, next)| < |Remaining(keys, prefix, cursor)|
  {
    hide SortedKeys, PageKeys, NextCursor, Remaining, HasPrefix, Less, KeysOf, StrictlySorted, Elements;
    NextPage(keys, prefix, limit, cursor);
    KeysOfAppend(items, page);
    if NextCursor(KeysOf(page), limit).Some? {
      WalkOn(keys, prefix, limit, cursor, KeysOf(items), KeysOf(page), target);
    }
  }

  lemma WalkOn(keys: set<Key>, prefix: Bytes, limit: nat, cursor: Bytes, known: seq<Key>, page: seq<Key>,
               target: seq<Key>)
    requires [] !in keys && NextCursor(page, limit).Some?
    requires var rest, next := Remaining(keys, prefix, cursor), NextCursor(page, limit).value;
             && known + SortedKeys(rest) == target && Elements(page) <= rest
             && next in rest && (cursor != [] ==> Less(cursor, next))
             && (next != [] ==> Remaining(keys, prefix, next) == rest - Elements(page))
             && SortedKeys(rest) == page + SortedKeys(rest - Elements(page))
    ensures var next := NextCursor(page, limit).value;
            && next != [] && next != cursor
            && (known + page) + SortedKeys(Remaining(keys, prefix, next)) == target
            && |Remaining(keys, prefix, next)| < |Remaining(keys, prefix, cursor)|
  {
    hide SortedKeys, NextCursor, Remaining, Less, Elements;
    var rest := Remaining(keys, prefix, cursor);
    InRemaining(keys, prefix, cursor);
    LessIrreflexive(cursor);
    InPage(page, limit, rest);
    var tail := SortedKeys(rest - Elements(page));
    assert (known + page) + tail == known + (page + tail);
  }

  lemma RemainingAll(keys: set<Key>, prefix: Bytes)
    ensures Remaining(keys, prefix, []) == Under(keys, prefix)
  {
  }

  lemma InRemaining(keys: set<Key>, prefix: Bytes, cursor: Bytes)
    ensures Remaining(keys, prefix, cursor) <= keys
  {
  }

  lemma InPage(page: seq<Key>, limit: nat, rest: set<Key>)
    requires Elements(page) <= rest && NextCursor(page, limit).Some?
    ensures |rest - Elements(page)| < |rest|
  {
    assert page[|page| - 1] in Elements(page);
    assert rest == (rest - Elements(page)) + Elements(page);
    assert |rest| == |rest - Elements(page)| + |Elements(page)|;
    assert Elements(page) != {};
  }

  lemma KeysOfAppend(a: seq<Manifest>, b: seq<Manifest>)
    ensures KeysOf(a + b) == KeysOf(a) + KeysOf(b)
  {
  }

  // ---- stream deletion ----

  const INIT_SUFFIX: Bytes := [47, 105, 110, 105, 116, 46, 109, 112, 52] // "/init.mp4"

  /** The keys that end in `/init.mp4`. */
  ghost function Variants(keys: set<Key>): set<Key> {
    set k | k in keys && |k| >= 9 && k[|k| - 9..] == [47, 105, 110, 105, 116, 46, 109, 112, 52]
  }

  /** Delete every object under a prefix page by page, although each cursor
      names a key that has just been deleted. The counts are split by suffix. */
  method DeleteStream(e: StorageEngine, prefix: Bytes) returns (variants: nat, segments: nat)
    requires e.Valid()
    modifies e`held, e.index, e.disk
    ensures e.Valid() && e.held == old(e.held)
    ensures var gone := Under(old(e.index.manifests.Keys), prefix);
            && e.index.manifests == old(e.index.manifests) - gone
            && e.Objects() == old(e.Objects()) - gone
            && variants == |Variants(gone)| && segments == |gone - Variants(gone)|
            && variants + segments == |gone|
  {
    hide StorageEngine.Valid, SortedKeys, PageKeys, NextCursor, Remaining, WellKeyed, HasPrefix, Less;
    hide Variants, Under, ObjectsOf, KeysOf, Elements, Counted;
    ghost var m, keys, all := e.index.manifests, e.index.manifests.Keys, Under(e.index.manifests.Keys, prefix);
    variants, segments := 0, 0;
    var cursor: Bytes := [];
    ghost var gone: set<Key> := {};
    RemainingAll(keys, prefix);
    CountsStart();
    assert m - gone == m;
    while true
      invariant e.Valid() && e.held == old(e.held)
      invariant cursor == [] || HasPrefix(cursor, prefix)
      invariant gone <= all && Remaining(keys, prefix, cursor) == all - gone
      invariant e.index.manifests == m - gone
      invariant Counted(gone, variants, segments)
      decreases |all - gone|
    {
      ValidKeys(e);
      var page, next := e.List(prefix, 1000, cursor);
      DeleteStep(keys, prefix, cursor, gone, all, KeysOf(page));
      if page == [] {
        break;
      }
      variants, segments := DeletePage(e, page, m, gone, variants, segments);
      gone := gone + Elements(KeysOf(page));
      match next {
        case Some(c) => cursor := c;
        case None => break;
      }
    }
    AllObjects(e.h, m, all);
    CountAll(all, variants, segments);
  }

  /** Variants and segments among the deleted keys. */
  ghost predicate Counted(gone: set<Key>, variants: nat, segments: nat) {
    variants == |Variants(gone)| && segments == |gone - Variants(gone)|
  }

  /** Delete the objects of one page. */
  method DeletePage(e: StorageEngine, page: seq<Manifest>, ghost m: Manifests, ghost before: set<Key>,
                    variants0: nat, segments0: nat)
    returns (variants: nat, segments: nat)
    requires e.Valid() && e.index.manifests == m - before && Counted(before, variants0, segments0)
    requires StrictlySorted(KeysOf(page)) && Elements(KeysOf(page)) !! before
    modifies e`held, e.index, e.disk
    ensures e.Valid() && e.held == old(e.held)
    ensures e.index.manifests == m - (before + Elements(KeysOf(page)))
    ensures Counted(before + Elements(KeysOf(page)), variants, segments)
  {
    hide StorageEngine.Valid, Variants, ObjectsOf, Elements, Counted, StrictlySorted, HasSuffix;
    ghost var ks, gone := KeysOf(page), before;
    variants, segments := variants0, segments0;
    SeenAt(ks, 0);
    for j := 0 to |page|
      invariant e.Valid() && e.held == old(e.held)
      invariant gone == before + Elements(ks[..j]) && e.index.manifests == m - gone
      invariant Counted(gone, variants, segments)
    {
      var key := page[j].key;
      assert key == ks[j];
      FreshKey(ks, j, before);
      CountOne(gone, key, variants, segments);
      assert m - gone - {key} == m - (gone + {key});
      var _ := e.Delete(key);
      if HasSuffix(key, INIT_SUFFIX) { variants := variants + 1; } else { segments := segments + 1; }
      gone := gone + {key};
    }
    assert ks[..|page|] == ks;
  }

  /** What one page of the deletion loop removes and where it leads. */
  lemma DeleteStep(keys: set<Key>, prefix: Bytes, cursor: Bytes, gone: set<Key>, all: set<Key>, page: seq<Key>)
    requires [] !in keys - gone && (cursor == [] || HasPrefix(cursor, prefix))
    requires all == Under(keys, prefix) && gone <= all && Remaining(keys, prefix, cursor) == all - gone
    requires page == PageKeys(keys - gone, prefix, 1000, cursor)
    ensures StrictlySorted(page) && Elements(page) !! gone && gone + Elements(page) <= all
    ensures page == [] ==> gone == all
    ensures match NextCursor(page, 1000)
            case None => gone + Elements(page) == all
            case Some(c) => HasPrefix(c, prefix)
                            && Remaining(keys, prefix, c) == all - (gone + Elements(page))
                            && |all - (gone + Elements(page))| < |all - gone|
  {
    hide SortedKeys, PageKeys, Less, HasPrefix, StrictlySorted, Remaining, Under, Elements, NextCursor;
    LeftoverKeys(keys, gone, all, prefix, cursor);
    NextPage(keys - gone, prefix, 1000, cursor);
    InRemaining(keys - gone, prefix, cursor);
    var rest, taken := all - gone, Elements(page);
    LastPage(page, rest);
    assert rest - taken == all - (gone + taken);
    match NextCursor(page, 1000)
    case None =>
      assert taken == rest;
    case Some(c) =>
      InPage(page, 1000, rest);
      BeyondGone(keys, gone, prefix, cursor, c, all);
  }

  /** The keys deleted so far do not sort after the new cursor. */
  lemma BeyondGone(keys: set<Key>, gone: set<Key>, prefix: Bytes, cursor: Bytes, c: Key, all: set<Key>)
    requires all == Under(keys, prefix) && Remaining(keys, prefix, cursor) == all - gone
    requires c != [] && (cursor != [] ==> Less(cursor, c))
    ensures Remaining(keys, prefix, c) == Remaining(keys - gone, prefix, c)
  {
    forall k | k in Remaining(keys, prefix, c) ensures k !in gone {
      if cursor != [] { LessTransitive(cursor, c, k); }
      assert k in Remaining(keys, prefix, cursor);
    }
  }

  lemma ValidKeys(e: StorageEngine)
    requires e.Valid()
    ensures WellKeyed(e.index.manifests) && [] !in e.index.manifests
  {
    hide Recorded, Balanced, Backed, CrashSafe, ContentAddressed, LogText.Good, LogText.Render, Replay;
  }

  lemma LeftoverKeys(keys: set<Key>, gone: set<Key>, all: set<Key>, prefix: Bytes, cursor: Bytes)
    requires all == Under(keys, prefix) && gone <= all && Remaining(keys, prefix, cursor) == all - gone
    ensures Remaining(keys - gone, prefix, cursor) == all - gone
  {
    hide Less;
  }

  lemma LastPage(page: seq<Key>, rest: set<Key>)
    ensures page == SortedKeys(rest) ==> Elements(page) == rest
    ensures page == [] ==> Elements(page) == {} && NextCursor(page, 1000) == None
  {
    hide SortedKeys;
  }

  lemma FreshKey(ks: seq<Key>, j: nat, before: set<Key>)
    requires j < |ks| && StrictlySorted(ks) && Elements(ks) !! before
    ensures ks[j] !in before + Elements(ks[..j])
    ensures Elements(ks[..j + 1]) == Elements(ks[..j]) + {ks[j]}
  {
    SeenAt(ks, j + 1);
    assert ks[j] in Elements(ks);
  }

  lemma CountsStart()
    ensures Counted({}, 0, 0)
  {
    assert Variants({}) == {};
  }

  lemma CountOne(gone: set<Key>, key: Key, variants: nat, segments: nat)
    requires key !in gone && Counted(gone, variants, segments)
    ensures if HasSuffix(key, INIT_SUFFIX) then Counted(gone + {key}, variants + 1, segments)
            else Counted(gone + {key}, variants, segments + 1)
  {
    var next := gone + {key};
    if HasSuffix(key, INIT_SUFFIX) {
      assert Variants(next) == Variants(gone) + {key};
      assert next - Variants(next) == gone - Variants(gone);
    } else {
      assert Variants(next) == Variants(gone);
      assert next - Variants(next) == (gone - Variants(gone)) + {key};
    }
  }

  lemma CountAll(all: set<Key>, variants: nat, segments: nat)
    requires Counted(all, variants, segments)
    ensures variants == |Variants(all)| && segments == |all - Variants(all)| && variants + segments == |all|
  {
    assert all == Variants(all) + (all - Variants(all));
  }

  lemma AllObjects(h: Hashes, m: Manifests, gone: set<Key>)
    ensures ObjectsOf(h, m - gone) == ObjectsOf(h, m) - gone
  {
  }
}
