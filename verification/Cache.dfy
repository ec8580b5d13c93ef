/** The size-bounded LRU chunk cache (kaidadb-cache): byte accounting on top of
    an LRU map with an entry cap, which drops its least recent entry silently
    when a new one does not fit. */
module Cache {
  import opened Bytes
  import opened Types

  datatype Entry = Entry(id: ChunkId, data: Bytes)

  // ---- specification: entries, most recently used first ----

  function Stored(es: seq<Entry>): nat {
    if es == [] then 0 else Stored(es[..|es| - 1]) + |es[|es| - 1].data|
  }

  function Position(es: seq<Entry>, id: ChunkId): (i: nat)
    ensures i <= |es| && (i < |es| ==> es[i].id == id)
    ensures forall j :: 0 <= j < i ==> es[j].id != id
  {
    if es == [] || es[0].id == id then 0 else 1 + Position(es[1..], id)
  }

  predicate Has(es: seq<Entry>, id: ChunkId) {
    Position(es, id) < |es|
  }

  function Without(es: seq<Entry>, id: ChunkId): seq<Entry> {
    var i := Position(es, id);
    if i < |es| then es[..i] + es[i + 1..] else es
  }

  function Front(es: seq<Entry>, id: ChunkId): seq<Entry> {
    if Has(es, id) then [es[Position(es, id)]] + Without(es, id) else es
  }

  /** `LruCache::put`: replace and move to the front; a new entry in a full map
      pushes the least recent one out unreported. */
  function PutFront(es: seq<Entry>, cap: nat, id: ChunkId, data: Bytes): seq<Entry> {
    if Has(es, id) then [Entry(id, data)] + Without(es, id)
    else if 0 < |es| == cap then [Entry(id, data)] + es[..|es| - 1]
    else [Entry(id, data)] + es
  }

  function PutReturns(es: seq<Entry>, id: ChunkId): Option<Bytes> {
    if Has(es, id) then Some(es[Position(es, id)].data) else None
  }

  /** The bytes of the entry `put` pushes out unreported. */
  function Pushed(es: seq<Entry>, cap: nat, id: ChunkId): nat {
    if !Has(es, id) && 0 < |es| == cap then |es[|es| - 1].data| else 0
  }

  datatype State = State(entries: seq<Entry>, size: nat)

  datatype Op = Get(id: ChunkId) | Insert(id: ChunkId, data: Bytes) | Invalidate(id: ChunkId)

  /** `usize` subtraction; the run invariant shows that it never underflows. */
  function Minus(size: nat, n: nat): nat {
    if n <= size then size - n else 0
  }

  /** The eviction loop, least recently used first. */
  function Evict(s: State, need: nat, max: nat): State
    decreases |s.entries|
  {
    if s.size + need <= max || s.entries == [] then s
    else
      var n := |s.entries| - 1;
      Evict(State(s.entries[..n], Minus(s.size, |s.entries[n].data|)), need, max)
  }

  function Next(s: State, cap: nat, max: nat, op: Op): State {
    match op
    case Get(id) => s.(entries := Front(s.entries, id))
    case Insert(id, data) =>
      if |data| > max then s
      else
        var kept := Evict(s, |data|, max);
        var size := match PutReturns(kept.entries, id)
                    case Some(replaced) => Minus(kept.size, |replaced|)
                    case None => kept.size;
        State(PutFront(kept.entries, cap, id, data), size + |data|)
    case Invalidate(id) =>
      if Has(s.entries, id)
      then State(Without(s.entries, id), Minus(s.size, |s.entries[Position(s.entries, id)].data|))
      else s
  }

  /** Bytes an operation loses from the map without the accounting noticing. */
  function Lost(s: State, cap: nat, max: nat, op: Op): nat {
    match op
    case Insert(id, data) => if |data| > max then 0 else Pushed(Evict(s, |data|, max).entries, cap, id)
    case _ => 0
  }

  // ---- whole runs ----

  function Run(cap: nat, max: nat, ops: seq<Op>): State {
    if ops == [] then State([], 0) else Next(Run(cap, max, ops[..|ops| - 1]), cap, max, ops[|ops| - 1])
  }

  /** All bytes silently pushed out in a run. */
  function Drift(cap: nat, max: nat, ops: seq<Op>): nat {
    if ops == [] then 0
    else Drift(cap, max, ops[..|ops| - 1]) + Lost(Run(cap, max, ops[..|ops| - 1]), cap, max, ops[|ops| - 1])
  }

  /** The entry used by an operation, when it is used at all. */
  predicate Uses(op: Op, max: nat, id: ChunkId) {
    match op
    case Get(x) => x == id
    case Insert(x, data) => x == id && |data| <= max
    case Invalidate(_) => false
  }

  /** One past the last operation that used `id`; 0 when none did. */
  function LastUse(max: nat, ops: seq<Op>, id: ChunkId): nat {
    if ops == [] then 0
    else if Uses(ops[|ops| - 1], max, id) then |ops|
    else LastUse(max, ops[..|ops| - 1], id)
  }

  /** Entries stand in order of their last use, most recent first. */
  ghost predicate ByRecency(max: nat, ops: seq<Op>, es: seq<Entry>) {
    forall i, j :: 0 <= i < j < |es| ==> LastUse(max, ops, es[i].id) > LastUse(max, ops, es[j].id)
  }

  // ---- step lemmas ----

  lemma {:induction false} StoredAppend(a: seq<Entry>, b: seq<Entry>)
    ensures Stored(a + b) == Stored(a) + Stored(b)
  {
    if b == [] {
      assert a + b == a;
    } else {
      var front, last := b[..|b| - 1], b[|b| - 1];
      StoredAppend(a, front);
      assert (a + b)[..|a + b| - 1] == a + front;
    }
  }

  lemma StoredLast(es: seq<Entry>)
    ensures es != [] ==> Stored(es) == Stored(es[..|es| - 1]) + |es[|es| - 1].data|
  {
  }

  lemma StoredCut(es: seq<Entry>, i: nat)
    requires i < |es|
    ensures Stored(es) == Stored(es[..i] + es[i + 1..]) + |es[i].data|
  {
    var a, x, b := es[..i], [es[i]], es[i + 1..];
    assert es == a + (x + b);
    StoredAppend(a, x + b);
    StoredAppend(x, b);
    StoredAppend(a, b);
    assert x[..0] == [];
    assert Stored(x) == |es[i].data|;
  }

  lemma StoredWithout(es: seq<Entry>, id: ChunkId)
    requires Has(es, id)
    ensures Stored(es) == Stored(Without(es, id)) + |es[Position(es, id)].data|
  {
    StoredCut(es, Position(es, id));
  }

  lemma StoredFront(x: Entry, es: seq<Entry>)
    ensures Stored([x] + es) == |x.data| + Stored(es)
  {
    StoredAppend([x], es);
    assert [x][..0] == [];
  }

  /** Eviction keeps a prefix, never underflows, keeps the drift, and stops with
      room enough or nothing left. */
  lemma {:induction false} EvictShape(s: State, need: nat, max: nat)
    requires Stored(s.entries) <= s.size
    ensures var r := Evict(s, need, max);
            && r.entries <= s.entries
            && Stored(r.entries) <= r.size
            && r.size - Stored(r.entries) == s.size - Stored(s.entries)
            && (r.size + need <= max || r.entries == [])
    decreases |s.entries|
  {
    if s.size + need <= max || s.entries == [] {
    } else {
      var n := |s.entries| - 1;
      EvictShape(State(s.entries[..n], Minus(s.size, |s.entries[n].data|)), need, max);
    }
  }

  /** Eviction drops no more than it has to: nothing when there is room, and
      with the last entry it dropped there would not have been. */
  lemma {:induction false} EvictMinimal(s: State, need: nat, max: nat)
    requires Stored(s.entries) <= s.size
    ensures var r := Evict(s, need, max);
            && r.entries <= s.entries
            && (s.size + need <= max || |r.entries| == |s.entries| ==> r == s)
            && (|r.entries| < |s.entries| ==> r.size + |s.entries[|r.entries|].data| + need > max)
    decreases |s.entries|
  {
    if s.size + need > max && s.entries != [] {
      var n := |s.entries| - 1;
      StoredLast(s.entries);
      EvictMinimal(State(s.entries[..n], Minus(s.size, |s.entries[n].data|)), need, max);
    }
  }

  /** Accounting of one `put`. */
  lemma PutStored(es: seq<Entry>, cap: nat, id: ChunkId, data: Bytes)
    ensures var replaced := match PutReturns(es, id) case Some(d) => |d| case None => 0;
            Stored(PutFront(es, cap, id, data)) + replaced + Pushed(es, cap, id) == Stored(es) + |data|
  {
    if Has(es, id) {
      StoredWithout(es, id);
      StoredFront(Entry(id, data), Without(es, id));
    } else if 0 < |es| == cap {
      StoredFront(Entry(id, data), es[..|es| - 1]);
    } else {
      StoredFront(Entry(id, data), es);
    }
  }

  /** One operation keeps the stored bytes within the limit and widens the gap
      to the recorded size by exactly the bytes it loses. */
  lemma StepAccounts(s: State, cap: nat, max: nat, op: Op)
    requires Stored(s.entries) <= s.size && Stored(s.entries) <= max
    ensures var r := Next(s, cap, max, op);
            && Stored(r.entries) <= r.size && Stored(r.entries) <= max
            && r.size - Stored(r.entries) == s.size - Stored(s.entries) + Lost(s, cap, max, op)
  {
    hide PutFront, Evict;
    match op
    case Get(id) =>
      if Has(s.entries, id) {
        StoredWithout(s.entries, id);
        StoredFront(s.entries[Position(s.entries, id)], Without(s.entries, id));
      }
    case Insert(id, data) =>
      if |data| <= max {
        EvictShape(s, |data|, max);
        PutStored(Evict(s, |data|, max).entries, cap, id, data);
        if Has(Evict(s, |data|, max).entries, id) { StoredWithout(Evict(s, |data|, max).entries, id); }
        assert Stored([]) == 0;
      }
    case Invalidate(id) =>
      if Has(s.entries, id) { StoredWithout(s.entries, id); }
  }

  /** In every run the stored bytes stay within the limit, and the recorded size
      exceeds them by exactly the bytes silently pushed out by the entry cap. */
  lemma {:induction false} RunAccounts(cap: nat, max: nat, ops: seq<Op>)
    ensures var s := Run(cap, max, ops);
            Stored(s.entries) <= max && s.size == Stored(s.entries) + Drift(cap, max, ops)
  {
    if ops != [] {
      var front, last := ops[..|ops| - 1], ops[|ops| - 1];
      RunAccounts(cap, max, front);
      StepAccounts(Run(cap, max, front), cap, max, last);
    }
  }

  /** An insert of a new id into a map that is full after evicting, and whose
      least recent entry is not empty. */
  predicate PushesOut(s: State, cap: nat, max: nat, op: Op) {
    op.Insert? && |op.data| <= max &&
    var es := Evict(s, |op.data|, max).entries;
    !Has(es, op.id) && 0 < |es| == cap && es[|es| - 1].data != []
  }

  lemma {:induction false} DriftIff(cap: nat, max: nat, ops: seq<Op>)
    ensures Drift(cap, max, ops) == 0 <==>
            forall i :: 0 <= i < |ops| ==> !PushesOut(Run(cap, max, ops[..i]), cap, max, ops[i])
  {
    hide Evict, Run;
    if ops != [] {
      var n := |ops| - 1;
      var front := ops[..n];
      DriftIff(cap, max, front);
      assert forall i :: 0 <= i < n ==> front[..i] == ops[..i];
      assert Lost(Run(cap, max, front), cap, max, ops[n]) == 0 <==> !PushesOut(Run(cap, max, front), cap, max, ops[n]);
    }
  }

  /** The recorded size is right exactly as long as no insert pushed an entry
      out. */
  lemma SizeExactIff(cap: nat, max: nat, ops: seq<Op>)
    ensures Run(cap, max, ops).size == Stored(Run(cap, max, ops).entries) <==>
            forall i :: 0 <= i < |ops| ==> !PushesOut(Run(cap, max, ops[..i]), cap, max, ops[i])
  {
    hide Run, PushesOut;
    RunAccounts(cap, max, ops);
    DriftIff(cap, max, ops);
  }

  /** The ids of the chunks that were small enough to be cached. */
  function Inserted(max: nat, ops: seq<Op>): set<ChunkId> {
    set i | 0 <= i < |ops| && ops[i].Insert? && |ops[i].data| <= max :: ops[i].id
  }

  function IdsOf(es: seq<Entry>): set<ChunkId> {
    set i | 0 <= i < |es| :: es[i].id
  }

  ghost predicate Distinct(es: seq<Entry>) {
    forall i, j :: 0 <= i < j < |es| ==> es[i].id != es[j].id
  }

  lemma {:induction false} DistinctCount(es: seq<Entry>)
    requires Distinct(es)
    ensures |IdsOf(es)| == |es|
  {
    if es != [] {
      var n := |es| - 1;
      DistinctCount(es[..n]);
      assert IdsOf(es) == IdsOf(es[..n]) + {es[n].id};
    } else {
      assert IdsOf(es) == {};
    }
  }

  lemma {:induction false} OnlyInserted(cap: nat, max: nat, ops: seq<Op>)
    ensures IdsOf(Run(cap, max, ops).entries) <= Inserted(max, ops)
  {
    if ops != [] {
      var n := |ops| - 1;
      var front, last := ops[..n], ops[n];
      OnlyInserted(cap, max, front);
      RunAccounts(cap, max, front);
      assert forall i :: 0 <= i < n ==> ops[i] == front[i];
      assert Inserted(max, front) <= Inserted(max, ops);
      NextIds(Run(cap, max, front), cap, max, last);
      if last.Insert? && |last.data| <= max { assert ops[n].id in Inserted(max, ops); }
    }
  }

  lemma NextIds(s: State, cap: nat, max: nat, op: Op)
    requires Stored(s.entries) <= s.size
    ensures if op.Insert? && |op.data| <= max
            then IdsOf(Next(s, cap, max, op).entries) <= IdsOf(s.entries) + {op.id}
            else IdsOf(Next(s, cap, max, op).entries) <= IdsOf(s.entries)
  {
    hide Evict, Stored, PutFront, Front, Without, IdsOf;
    match op
    case Get(id) => FewerIds(s.entries, id);
    case Insert(id, data) =>
      if |data| <= max {
        EvictShape(s, |data|, max);
        PutIds(s.entries, Evict(s, |data|, max).entries, cap, id, data);
      }
    case Invalidate(id) => FewerIds(s.entries, id);
  }

  lemma FewerIds(es: seq<Entry>, id: ChunkId)
    ensures IdsOf(Without(es, id)) <= IdsOf(es) && IdsOf(Front(es, id)) <= IdsOf(es)
  {
    var p, less, front := Position(es, id), Without(es, id), Front(es, id);
    forall i | 0 <= i < |less| ensures less[i].id in IdsOf(es) {
      assert less[i] == if i < p then es[i] else es[i + 1];
    }
    forall i | 0 <= i < |front| ensures front[i].id in IdsOf(es) {
      assert front != es ==> front[i] == if i == 0 then es[p] else less[i - 1];
    }
  }

  lemma PutIds(es: seq<Entry>, kept: seq<Entry>, cap: nat, id: ChunkId, data: Bytes)
    requires kept <= es
    ensures IdsOf(PutFront(kept, cap, id, data)) <= IdsOf(es) + {id}
  {
    hide Front;
    FewerIds(kept, id);
    assert IdsOf(kept) <= IdsOf(es);
  }

  /** With at most as many different chunks as the map has room for, the recorded
      size is always right. */
  lemma SizeExactForFew(cap: nat, max: nat, ops: seq<Op>)
    requires cap > 0 && |Inserted(max, ops)| <= cap
    ensures Run(cap, max, ops).size == Stored(Run(cap, max, ops).entries)
  {
    hide Run, PushesOut;
    forall i | 0 <= i < |ops| ensures !PushesOut(Run(cap, max, ops[..i]), cap, max, ops[i]) {
      RoomForAll(cap, max, ops, i);
    }
    SizeExactIff(cap, max, ops);
  }

  lemma RoomForAll(cap: nat, max: nat, ops: seq<Op>, i: nat)
    requires cap > 0 && |Inserted(max, ops)| <= cap && i < |ops|
    ensures !PushesOut(Run(cap, max, ops[..i]), cap, max, ops[i])
  {
    hide Run, Evict, ByRecency, Stored;
    var s, op := Run(cap, max, ops[..i]), ops[i];
    if PushesOut(s, cap, max, op) {
      OnlyInserted(cap, max, ops[..i]);
      RunAccounts(cap, max, ops[..i]);
      RunRecency(cap, max, ops[..i]);
      EvictShape(s, |op.data|, max);
      var es := Evict(s, |op.data|, max).entries;
      RecencyDistinct(max, ops[..i], s.entries, es);
      DistinctCount(es);
      AbsentEverywhere(es, op.id);
      TooManyIds(max, ops, i, s.entries, es, op.id);
    }
  }

  lemma RecencyDistinct(max: nat, ops: seq<Op>, es: seq<Entry>, front: seq<Entry>)
    requires ByRecency(max, ops, es) && front <= es
    ensures Distinct(front)
  {
    hide LastUse;
  }

  lemma TooManyIds(max: nat, ops: seq<Op>, i: nat, es: seq<Entry>, front: seq<Entry>, id: ChunkId)
    requires i < |ops| && ops[i].Insert? && |ops[i].data| <= max && ops[i].id == id
    requires IdsOf(es) <= Inserted(max, ops[..i]) && front <= es
    requires forall x :: x in front ==> x.id != id
    ensures |IdsOf(front)| < |Inserted(max, ops)|
  {
    assert forall j :: 0 <= j < i ==> ops[..i][j] == ops[j];
    forall x | x in IdsOf(front) ensures x in Inserted(max, ops) && x != id {
      var j :| 0 <= j < |front| && front[j].id == x;
      assert front[j] in front && es[j] == front[j] && es[j].id in IdsOf(es);
    }
    assert id in Inserted(max, ops);
    Smaller(IdsOf(front), Inserted(max, ops), id);
  }

  lemma Smaller(a: set<ChunkId>, b: set<ChunkId>, x: ChunkId)
    requires a <= b && x in b && x !in a
    ensures |a| < |b|
  {
    assert b == (b - {x} - a) + {x} + a;
  }

  // ---- recency ----

  lemma AbsentEverywhere(es: seq<Entry>, id: ChunkId)
    requires !Has(es, id)
    ensures forall i :: 0 <= i < |es| ==> es[i].id != id
    ensures forall x :: x in es ==> x.id != id
  {
  }

  /** Moving `id` to the front, after an operation that used it. */
  lemma FrontByRecency(max: nat, ops: seq<Op>, op: Op, es: seq<Entry>, rest: seq<Entry>, x: Entry)
    requires ByRecency(max, ops, es) && Uses(op, max, x.id)
    requires forall y :: Uses(op, max, y) ==> y == x.id
    requires rest == Without(es, x.id) || (!Has(es, x.id) && rest <= es)
    ensures ByRecency(max, ops + [op], [x] + rest)
  {
    UsedNow(max, ops, op);
    var after := [x] + rest;
    RestOrder(max, ops, es, rest, x.id);
    forall i, j | 0 <= i < j < |after|
      ensures LastUse(max, ops + [op], after[i].id) > LastUse(max, ops + [op], after[j].id)
    {
      LastUseBound(max, ops, after[j].id);
    }
  }

  lemma {:induction false} LastUseBound(max: nat, ops: seq<Op>, id: ChunkId)
    ensures LastUse(max, ops, id) <= |ops|
  {
    if ops != [] { LastUseBound(max, ops[..|ops| - 1], id); }
  }

  lemma UsedNow(max: nat, ops: seq<Op>, op: Op)
    ensures forall id :: LastUse(max, ops + [op], id) ==
              if Uses(op, max, id) then |ops| + 1 else LastUse(max, ops, id)
  {
    assert (ops + [op])[..|ops|] == ops;
  }

  lemma RestOrder(max: nat, ops: seq<Op>, es: seq<Entry>, rest: seq<Entry>, id: ChunkId)
    requires ByRecency(max, ops, es)
    requires rest == Without(es, id) || (!Has(es, id) && rest <= es)
    ensures ByRecency(max, ops, rest)
    ensures forall i :: 0 <= i < |rest| ==> rest[i].id != id
  {
    if Has(es, id) {
      var p := Position(es, id);
      forall i | 0 <= i < |rest| ensures rest[i].id != id {
        if i >= p { assert rest[i] == es[i + 1] && LastUse(max, ops, es[p].id) > LastUse(max, ops, es[i + 1].id); }
      }
    }
  }

  lemma PrefixOrder(max: nat, ops: seq<Op>, es: seq<Entry>, front: seq<Entry>)
    requires ByRecency(max, ops, es) && front <= es
    ensures ByRecency(max, ops, front)
  {
  }

  lemma UnusedOrder(max: nat, ops: seq<Op>, op: Op, es: seq<Entry>)
    requires ByRecency(max, ops, es) && forall i :: 0 <= i < |es| ==> !Uses(op, max, es[i].id)
    ensures ByRecency(max, ops + [op], es)
  {
    UsedNow(max, ops, op);
  }

  lemma StepRecency(cap: nat, max: nat, ops: seq<Op>, s: State, op: Op)
    requires ByRecency(max, ops, s.entries) && Stored(s.entries) <= s.size
    ensures ByRecency(max, ops + [op], Next(s, cap, max, op).entries)
  {
    hide ByRecency, Evict, LastUse;
    match op
    case Get(id) =>
      if Has(s.entries, id) {
        FrontByRecency(max, ops, op, s.entries, Without(s.entries, id), s.entries[Position(s.entries, id)]);
      } else {
        AbsentEverywhere(s.entries, id);
        UnusedOrder(max, ops, op, s.entries);
      }
    case Insert(id, data) =>
      if |data| <= max {
        var kept := Evict(s, |data|, max).entries;
        EvictShape(s, |data|, max);
        PrefixOrder(max, ops, s.entries, kept);
        var rest := if Has(kept, id) then Without(kept, id)
                    else if 0 < |kept| == cap then kept[..|kept| - 1] else kept;
        FrontByRecency(max, ops, op, kept, rest, Entry(id, data));
      } else {
        UnusedOrder(max, ops, op, s.entries);
      }
    case Invalidate(id) =>
      RestOrder(max, ops, s.entries, Without(s.entries, id), id);
      UnusedOrder(max, ops, op, Without(s.entries, id));
  }

  /** In every run the entries are ordered by last use, hence distinct, and there
      are never more than the cap. */
  lemma {:induction false} RunRecency(cap: nat, max: nat, ops: seq<Op>)
    requires cap > 0
    ensures var s := Run(cap, max, ops);
            ByRecency(max, ops, s.entries) && |s.entries| <= cap
  {
    if ops == [] {
      assert Run(cap, max, ops).entries == [];
    } else {
      hide ByRecency, Stored, Next;
      var front, last := ops[..|ops| - 1], ops[|ops| - 1];
      RunRecency(cap, max, front);
      RunAccounts(cap, max, front);
      StepRecency(cap, max, front, Run(cap, max, front), last);
      assert front + [last] == ops;
      StepRoom(Run(cap, max, front), cap, max, last);
    }
  }

  lemma StepRoom(s: State, cap: nat, max: nat, op: Op)
    requires cap > 0 && |s.entries| <= cap && Stored(s.entries) <= s.size
    ensures |Next(s, cap, max, op).entries| <= cap
  {
    hide Evict, Stored;
    if op.Insert? { EvictShape(s, |op.data|, max); }
  }

  /** Whatever an insert throws out, by eviction or by the cap, was used less
      recently than everything it keeps. */
  lemma EvictedIsOlder(cap: nat, max: nat, ops: seq<Op>, id: ChunkId, data: Bytes, gone: ChunkId, kept: ChunkId)
    requires cap > 0
    requires var before, after := Run(cap, max, ops).entries, Run(cap, max, ops + [Insert(id, data)]).entries;
             && Has(before, gone) && !Has(after, gone)
             && Has(before, kept) && Has(after, kept) && kept != id
    ensures LastUse(max, ops, gone) < LastUse(max, ops, kept)
  {
    hide LastUse, Evict;
    var s := Run(cap, max, ops);
    assert (ops + [Insert(id, data)])[..|ops|] == ops;
    RunRecency(cap, max, ops);
    RunAccounts(cap, max, ops);
    EvictShape(s, |data|, max);
    var front := Evict(s, |data|, max).entries;
    var after := Next(s, cap, max, Insert(id, data)).entries;
    var i, j := Position(s.entries, gone), Position(s.entries, kept);
    KeptInPrefix(s.entries, front, cap, id, data, gone, kept);
  }

  lemma KeptInPrefix(es: seq<Entry>, front: seq<Entry>, cap: nat, id: ChunkId, data: Bytes,
                     gone: ChunkId, kept: ChunkId)
    requires front <= es && Has(es, gone) && Has(es, kept) && kept != id
    requires !Has(PutFront(front, cap, id, data), gone) && Has(PutFront(front, cap, id, data), kept)
    ensures Position(es, kept) < Position(es, gone)
  {
    hide PutFront, Position;
    var after := PutFront(front, cap, id, data);
    AbsentEverywhere(after, gone);
    var p := Position(after, kept);
    PutHead(front, cap, id, data);
    assert p > 0;
    // An entry that stays is one of the surviving prefix, and so is everything
    // before it.
    var q := PutBody(front, cap, id, data, p);
    PositionIsFirst(es, q, kept);
    assert forall r :: 0 <= r <= q ==> es[r] == front[r];
  }

  lemma PutHead(front: seq<Entry>, cap: nat, id: ChunkId, data: Bytes)
    ensures PutFront(front, cap, id, data) != [] && PutFront(front, cap, id, data)[0] == Entry(id, data)
  {
  }

  lemma PutBody(front: seq<Entry>, cap: nat, id: ChunkId, data: Bytes, p: nat) returns (q: nat)
    requires 0 < p < |PutFront(front, cap, id, data)|
    ensures q < |front| && front[q] == PutFront(front, cap, id, data)[p]
    ensures AllStay(front, q, id, PutFront(front, cap, id, data))
  {
    hide Position, Has, PutFront, AllStay;
    var x := Entry(id, data);
    PutShape(front, cap, id, data);
    if Has(front, id) {
      q := BodyWithout(front, x, Position(front, id), p);
    } else {
      q := p - 1;
      BodyPrefix(front, if 0 < |front| == cap then front[..|front| - 1] else front, x, p);
    }
  }

  lemma PutShape(front: seq<Entry>, cap: nat, id: ChunkId, data: Bytes)
    ensures var i := Position(front, id);
            PutFront(front, cap, id, data) ==
            [Entry(id, data)] + (if Has(front, id) then front[..i] + front[i + 1..]
                                 else if 0 < |front| == cap then front[..|front| - 1] else front)
    ensures Has(front, id) <==> Position(front, id) < |front|
  {
  }

  /** The first entries up to `q`, other than `id`, are all in `after`. */
  ghost predicate AllStay(front: seq<Entry>, q: nat, id: ChunkId, after: seq<Entry>) {
    forall r :: 0 <= r <= q < |front| && front[r].id != id ==> front[r] in after
  }

  lemma BodyPrefix(front: seq<Entry>, rest: seq<Entry>, x: Entry, p: nat)
    requires rest <= front && 0 < p <= |rest|
    ensures front[p - 1] == ([x] + rest)[p]
    ensures AllStay(front, p - 1, x.id, [x] + rest)
  {
    forall r | 0 <= r < p ensures front[r] in [x] + rest { assert ([x] + rest)[r + 1] == front[r]; }
  }

  lemma BodyWithout(front: seq<Entry>, x: Entry, i: nat, p: nat) returns (q: nat)
    requires i < |front| && front[i].id == x.id && 0 < p < |front|
    ensures var after := [x] + (front[..i] + front[i + 1..]);
            && q < |front| && |after| == |front| && front[q] == after[p]
            && AllStay(front, q, x.id, after)
  {
    var after := [x] + (front[..i] + front[i + 1..]);
    assert forall r :: 0 <= r < i ==> after[r + 1] == front[r];
    assert forall r :: i < r < |front| ==> after[r] == front[r];
    q := if p - 1 < i then p - 1 else p;
    forall r | 0 <= r <= q && front[r].id != x.id ensures front[r] in after {
      if r < i { assert after[r + 1] == front[r]; } else { assert after[r] == front[r]; }
    }
  }

  lemma {:induction false} PositionIsFirst(es: seq<Entry>, i: nat, id: ChunkId)
    requires i < |es| && es[i].id == id
    ensures Position(es, id) <= i
  {
    if es[0].id != id { PositionIsFirst(es[1..], i - 1, id); }
  }

  // ---- what a hit returns ----

  /** The data of the last insert of `id` that was not too large, unless `id` was
      invalidated since. */
  ghost function Latest(max: nat, ops: seq<Op>, id: ChunkId): Option<Bytes> {
    if ops == [] then None
    else
      match ops[|ops| - 1]
      case Insert(x, data) => if x == id && |data| <= max then Some(data) else Latest(max, ops[..|ops| - 1], id)
      case Invalidate(x) => if x == id then None else Latest(max, ops[..|ops| - 1], id)
      case Get(_) => Latest(max, ops[..|ops| - 1], id)
  }

  ghost predicate AllLatest(max: nat, ops: seq<Op>, es: seq<Entry>) {
    forall x :: x in es ==> Latest(max, ops, x.id) == Some(x.data)
  }

  lemma LatestSnoc(max: nat, ops: seq<Op>, op: Op)
    ensures forall id :: Latest(max, ops + [op], id) ==
              if op.Insert? && op.id == id && |op.data| <= max then Some(op.data)
              else if op.Invalidate? && op.id == id then None
              else Latest(max, ops, id)
  {
    assert (ops + [op])[..|ops|] == ops;
  }

  lemma WithoutSome(es: seq<Entry>, id: ChunkId)
    requires Distinct(es)
    ensures forall x :: x in Without(es, id) <==> x in es && x.id != id
    ensures forall x :: x in Front(es, id) <==> x in es
  {
    var p, rest := Position(es, id), Without(es, id);
    if Has(es, id) {
      assert es == es[..p] + [es[p]] + es[p + 1..];
      forall x | x in rest ensures x in es && x.id != id {
        var i :| 0 <= i < |rest| && rest[i] == x;
        assert x == if i < p then es[i] else es[i + 1];
      }
    } else {
      AbsentEverywhere(es, id);
    }
  }

  lemma StepLatest(cap: nat, max: nat, ops: seq<Op>, s: State, op: Op)
    requires AllLatest(max, ops, s.entries) && Distinct(s.entries) && Stored(s.entries) <= s.size
    ensures AllLatest(max, ops + [op], Next(s, cap, max, op).entries)
  {
    hide Evict, Latest, Without, Front, Position, Distinct;
    LatestSnoc(max, ops, op);
    WithoutSome(s.entries, op.id);
    if op.Insert? && |op.data| <= max {
      EvictShape(s, |op.data|, max);
      var kept := Evict(s, |op.data|, max).entries;
      assert Distinct(kept) by { DistinctPrefix(s.entries, kept); }
      WithoutSome(kept, op.id);
      if !Has(kept, op.id) { AbsentEverywhere(kept, op.id); }
      PrefixIn(s.entries, kept);
    }
  }

  lemma PrefixIn(es: seq<Entry>, front: seq<Entry>)
    requires front <= es
    ensures forall x :: x in front ==> x in es
  {
    forall x | x in front ensures x in es { var i :| 0 <= i < |front| && front[i] == x; assert es[i] == x; }
  }

  lemma DistinctPrefix(es: seq<Entry>, front: seq<Entry>)
    requires Distinct(es) && front <= es
    ensures Distinct(front)
  {
  }

  /** In every run a hit returns what was inserted last under its id. */
  lemma {:induction false} RunLatest(cap: nat, max: nat, ops: seq<Op>)
    requires cap > 0
    ensures AllLatest(max, ops, Run(cap, max, ops).entries)
  {
    if ops != [] {
      hide Next, AllLatest, Distinct, ByRecency, Stored;
      var front, last := ops[..|ops| - 1], ops[|ops| - 1];
      RunLatest(cap, max, front);
      RunAccounts(cap, max, front);
      RunRecency(cap, max, front);
      RecencyDistinct(max, front, Run(cap, max, front).entries, Run(cap, max, front).entries);
      StepLatest(cap, max, front, Run(cap, max, front), last);
      assert front + [last] == ops;
    } else {
      assert Run(cap, max, ops).entries == [];
    }
  }

  /** An insert that is not too large is kept, and loses another entry only when
      the limit or the cap is reached; an invalidated entry is gone; a lookup
      loses nothing. */
  lemma KeptAndLost(s: State, cap: nat, max: nat, op: Op, x: Entry)
    requires Stored(s.entries) <= s.size && Distinct(s.entries)
    ensures var after := Next(s, cap, max, op).entries;
      match op
      case Get(id) => x in after <==> x in s.entries
      case Invalidate(id) => x in after <==> x in s.entries && x.id != id
      case Insert(id, data) =>
        if |data| > max then after == s.entries
        else
          && Entry(id, data) in after
          && (x in after ==> x == Entry(id, data) || (x in s.entries && x.id != id))
          && (x in s.entries && x.id != id && x !in after ==> s.size + |data| > max || |s.entries| == cap)
  {
    hide Evict, Without, Front, Position, Stored, Distinct;
    WithoutSome(s.entries, op.id);
    if op.Insert? && |op.data| <= max { PutKeeps(s, cap, max, op.id, op.data, x); }
  }

  lemma PutKeeps(s: State, cap: nat, max: nat, id: ChunkId, data: Bytes, x: Entry)
    requires Stored(s.entries) <= s.size && Distinct(s.entries) && |data| <= max
    ensures var after := PutFront(Evict(s, |data|, max).entries, cap, id, data);
      && Entry(id, data) in after
      && (x in after ==> x == Entry(id, data) || (x in s.entries && x.id != id))
      && (x in s.entries && x.id != id && x !in after ==> s.size + |data| > max || |s.entries| == cap)
  {
    hide Evict, Without, Front, Position, Stored;
    EvictMinimal(s, |data|, max);
    var kept := Evict(s, |data|, max).entries;
    WithoutSome(kept, id);
    if !Has(kept, id) { AbsentEverywhere(kept, id); }
    PrefixIn(s.entries, kept);
    assert PutFront(kept, cap, id, data)[0] == Entry(id, data);
  }

  // ---- the drift is real ----

  /** Two one-byte inserts into a cache capped at one entry: the map holds one
      byte, the accounting says two. */
  lemma DriftHappens(a: ChunkId, b: ChunkId, x: Bytes, y: Bytes)
    requires a != b && |x| == |y| == 1
    ensures var s := Run(1, 10, [Insert(a, x), Insert(b, y)]);
            Stored(s.entries) == 1 && s.size == 2
  {
    var ops := [Insert(a, x), Insert(b, y)];
    assert ops[..1] == [Insert(a, x)] && ops[..1][..0] == [];
    assert Run(1, 10, ops[..1]) == State([Entry(a, x)], 1);
    assert [Entry(a, x)][..0] == [];
    assert Run(1, 10, ops).entries == [Entry(b, y)];
    RunAccounts(1, 10, ops);
    assert [Entry(b, y)][..0] == [];
  }

  // ---- the code ----

  class LruCache {
    const cap: nat
    var entries: seq<Entry>

    constructor (cap: nat)
      ensures this.cap == cap && entries == []
    {
      this.cap := cap;
      entries := [];
    }

    method Get(id: ChunkId) returns (r: Option<Bytes>)
      modifies this
      ensures entries == Front(old(entries), id)
      ensures r == PutReturns(old(entries), id)
    {
      r := PutReturns(entries, id);
      entries := Front(entries, id);
    }

    method Put(id: ChunkId, data: Bytes) returns (replaced: Option<Bytes>)
      modifies this
      ensures entries == PutFront(old(entries), cap, id, data)
      ensures replaced == PutReturns(old(entries), id)
    {
      replaced := PutReturns(entries, id);
      entries := PutFront(entries, cap, id, data);
    }

    method Pop(id: ChunkId) returns (r: Option<Bytes>)
      modifies this
      ensures entries == Without(old(entries), id)
      ensures r == PutReturns(old(entries), id)
    {
      r := PutReturns(entries, id);
      entries := Without(entries, id);
    }

    method PopLru() returns (r: Option<Entry>)
      modifies this
      ensures old(entries) == [] ==> r == None && entries == []
      ensures old(entries) != [] ==> r == Some(old(entries)[|old(entries)| - 1])
                                     && entries == old(entries)[..|old(entries)| - 1]
    {
      if entries == [] { return None; }
      r := Some(entries[|entries| - 1]);
      entries := entries[..|entries| - 1];
    }
  }

  const TYPICAL_CHUNK := 2 * 1024 * 1024

  class ChunkCache {
    const cache: LruCache
    const maxSize: nat
    var currentSize: nat
    var hits: nat
    var misses: nat

    ghost function Model(): State
      reads this, cache
    {
      State(cache.entries, currentSize)
    }

    /** No subtraction underflows and the stored bytes are within the limit. */
    ghost predicate Valid()
      reads this, cache
    {
      cache.cap > 0 && Stored(cache.entries) <= currentSize && Stored(cache.entries) <= maxSize
    }

    constructor (maxSize: nat)
      ensures fresh(cache) && this.maxSize == maxSize && Valid()
      ensures Model() == State([], 0)
      ensures cache.cap == if maxSize / 2_097_152 > 64 then maxSize / 2_097_152 else 64
      ensures hits == misses == 0
    {
      var estimated := if maxSize / TYPICAL_CHUNK > 64 then maxSize / TYPICAL_CHUNK else 64;
      cache := new LruCache(estimated);
      this.maxSize := maxSize;
      currentSize, hits, misses := 0, 0, 0;
    }

    method Get(id: ChunkId) returns (r: Option<Bytes>)
      requires Valid()
      modifies this, cache
      ensures Valid() && Model() == Next(old(Model()), cache.cap, maxSize, Op.Get(id))
      ensures r == PutReturns(old(cache.entries), id)
      ensures r.Some? ==> Entry(id, r.value) in old(cache.entries)
      ensures r.Some? ==> cache.entries != [] && cache.entries[0] == Entry(id, r.value)
      ensures r == None ==> forall x :: x in old(cache.entries) ==> x.id != id
      ensures hits == old(hits) + (if r.Some? then 1 else 0) && misses == old(misses) + (if r.Some? then 0 else 1)
    {
      StepAccounts(Model(), cache.cap, maxSize, Op.Get(id));
      r := cache.Get(id);
      if r.Some? { hits := hits + 1; } else { misses := misses + 1; }
    }

    method Insert(id: ChunkId, data: Bytes)
      requires Valid()
      modifies this, cache
      ensures Valid() && Model() == Next(old(Model()), cache.cap, maxSize, Op.Insert(id, data))
      ensures |data| <= maxSize ==> cache.entries != [] && cache.entries[0] == Entry(id, data)
      ensures hits == old(hits) && misses == old(misses)
    {
      hide Stored, PutFront, Position;
      ghost var start := Model();
      StepAccounts(start, cache.cap, maxSize, Op.Insert(id, data));
      if |data| > maxSize { return; }
      while currentSize + |data| > maxSize
        invariant Evict(Model(), |data|, maxSize) == Evict(start, |data|, maxSize)
        invariant Stored(cache.entries) <= currentSize && hits == old(hits) && misses == old(misses)
        decreases |cache.entries|
      {
        StoredLast(cache.entries);
        var lru := cache.PopLru();
        if lru == None { break; }
        currentSize := currentSize - |lru.value.data|;
      }
      assert Model() == Evict(start, |data|, maxSize);
      var replaced := cache.Put(id, data);
      if replaced.Some? {
        StoredWithout(Evict(start, |data|, maxSize).entries, id);
        currentSize := currentSize - |replaced.value|;
      }
      currentSize := currentSize + |data|;
      PutHead(Evict(start, |data|, maxSize).entries, cache.cap, id, data);
    }

    method Invalidate(id: ChunkId)
      requires Valid()
      modifies this, cache
      ensures Valid() && Model() == Next(old(Model()), cache.cap, maxSize, Op.Invalidate(id))
      ensures hits == old(hits) && misses == old(misses)
    {
      StepAccounts(Model(), cache.cap, maxSize, Op.Invalidate(id));
      if Has(cache.entries, id) { StoredWithout(cache.entries, id); }
      var data := cache.Pop(id);
      if data.Some? { currentSize := currentSize - |data.value|; }
    }
  }
}
