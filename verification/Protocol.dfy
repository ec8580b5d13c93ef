/** Concurrent operations on one engine, interleaved at lock granularity: the
    per-key mutexes with their on-demand table and its pruning (engine.rs), and
    the reference counts changed one locked step at a time (index.rs). */
module Protocol {
  import opened Bytes
  import opened Types
  import opened Refs
  import opened IndexModel

  type LockId = nat

  const PRUNE_LIMIT := 1024

  /** What an operation returns. */
  datatype Answer =
    | Committed(chunks: seq<ChunkId>)
    | GivenUp
    | Removed(found: bool)
    | Moved(chunks: seq<ChunkId>)
    | NoSource
    | TargetTaken

  /** An operation at its current program point. A `lock` is a handle on the
      mutex of the key before it; a rename has handles on both its keys, the
      smaller one first. */
  datatype Thread =
    // upload session
    | UploadStart(key: Key)
    | Uploading(key: Key, lock: LockId, refs: seq<ChunkId>)
    | AwaitCommit(key: Key, lock: LockId, refs: seq<ChunkId>)
    | Committing(key: Key, lock: LockId, refs: seq<ChunkId>)
    | Publishing(key: Key, lock: LockId, refs: seq<ChunkId>, previous: Option<seq<ChunkId>>)
    | Releasing(key: Key, lock: LockId, refs: seq<ChunkId>, pending: seq<ChunkId>)
    | Aborting(key: Key, lock: LockId, refs: seq<ChunkId>)
    // delete
    | DeleteStart(key: Key)
    | AwaitDelete(key: Key, lock: LockId)
    | Deleting(key: Key, lock: LockId)
    | Dropping(key: Key, lock: LockId, chunks: seq<ChunkId>, done: nat)
    | Leaving(key: Key, lock: LockId, answer: Answer)
    // rename
    | RenameStart(from: Key, to: Key)
    | RenameHalf(from: Key, to: Key, lock1: LockId)
    | AwaitFirst(from: Key, to: Key, lock1: LockId, lock2: LockId)
    | AwaitSecond(from: Key, to: Key, lock1: LockId, lock2: LockId)
    | Renaming(from: Key, to: Key, lock1: LockId, lock2: LockId)
    | RenameFound(from: Key, to: Key, lock1: LockId, lock2: LockId, chunks: seq<ChunkId>)
    | RenamePut(from: Key, to: Key, lock1: LockId, lock2: LockId, chunks: seq<ChunkId>)
    | RenameDouble(from: Key, to: Key, lock1: LockId, lock2: LockId, chunks: seq<ChunkId>)
    | LeavingBoth(from: Key, to: Key, lock1: LockId, lock2: LockId, answer: Answer)
    | LeavingFirst(from: Key, to: Key, lock1: LockId, answer: Answer)
    // its caller has the answer
    | Done(answer: Answer)

  /** Rename locks its keys in sorted order. */
  function First(from: Key, to: Key): Key {
    if Less(from, to) then from else to
  }

  function Second(from: Key, to: Key): Key {
    if Less(from, to) then to else from
  }

  /** `leaked` is bookkeeping of the model: the references of sessions that were
      dropped without finish or abort, now or before the engine was opened. */
  datatype State = State(
    manifests: ChunkLists,
    locations: Locations,
    locks: map<Key, LockId>,
    holder: map<LockId, nat>,
    nextLock: LockId,
    threads: seq<Thread>,
    leaked: multiset<ChunkId>)

  // ---- what a thread has ----

  /** Live handles: key and mutex. */
  function Handles(t: Thread): set<(Key, LockId)> {
    match t
    case Uploading(k, l, _) => {(k, l)}
    case AwaitCommit(k, l, _) => {(k, l)}
    case Committing(k, l, _) => {(k, l)}
    case Publishing(k, l, _, _) => {(k, l)}
    case Releasing(k, l, _, _) => {(k, l)}
    case Aborting(k, l, _) => {(k, l)}
    case AwaitDelete(k, l) => {(k, l)}
    case Deleting(k, l) => {(k, l)}
    case Dropping(k, l, _, _) => {(k, l)}
    case RenameHalf(f, t, l1) => {(First(f, t), l1)}
    case AwaitFirst(f, t, l1, l2) => {(First(f, t), l1), (Second(f, t), l2)}
    case AwaitSecond(f, t, l1, l2) => {(First(f, t), l1), (Second(f, t), l2)}
    case Renaming(f, t, l1, l2) => {(First(f, t), l1), (Second(f, t), l2)}
    case RenameFound(f, t, l1, l2, _) => {(First(f, t), l1), (Second(f, t), l2)}
    case RenamePut(f, t, l1, l2, _) => {(First(f, t), l1), (Second(f, t), l2)}
    case RenameDouble(f, t, l1, l2, _) => {(First(f, t), l1), (Second(f, t), l2)}
    case LeavingBoth(f, t, l1, l2, _) => {(First(f, t), l1), (Second(f, t), l2)}
    case LeavingFirst(f, t, l1, _) => {(First(f, t), l1)}
    case Leaving(k, l, _) => {(k, l)}
    case _ => {}
  }

  /** The mutexes a thread has locked, with their keys. */
  function Owned(t: Thread): set<(Key, LockId)> {
    match t
    case Uploading(_, _, _) => {}
    case AwaitCommit(_, _, _) => {}
    case Aborting(_, _, _) => {}
    case AwaitDelete(_, _) => {}
    case RenameHalf(_, _, _) => {}
    case AwaitFirst(_, _, _, _) => {}
    case AwaitSecond(f, t, l1, _) => {(First(f, t), l1)}
    case _ => Handles(t)
  }

  /** The mutex a thread is waiting for. */
  function Wanted(t: Thread): Option<(Key, LockId)> {
    match t
    case AwaitCommit(k, l, _) => Some((k, l))
    case AwaitDelete(k, l) => Some((k, l))
    case AwaitFirst(f, t, l1, _) => Some((First(f, t), l1))
    case AwaitSecond(f, t, _, l2) => Some((Second(f, t), l2))
    case _ => None
  }

  /** References a thread holds beyond the manifests: those of its upload, and
      those of a replaced version it has still to release. */
  function Credit(t: Thread): multiset<ChunkId> {
    match t
    case Uploading(_, _, refs) => multiset(refs)
    case AwaitCommit(_, _, refs) => multiset(refs)
    case Committing(_, _, refs) => multiset(refs)
    case Publishing(_, _, refs, _) => multiset(refs)
    case Releasing(_, _, _, pending) => multiset(pending)
    case Aborting(_, _, refs) => multiset(refs)
    case _ => multiset{}
  }

  /** Occurrences in manifests that are no longer, or not yet, counted: the
      decrements a delete has done, and the double entry of a rename. */
  function Debit(t: Thread): multiset<ChunkId> {
    match t
    case Dropping(_, _, chunks, done) => if done <= |chunks| then multiset(chunks[..done]) else multiset{}
    case RenameDouble(_, _, _, _, chunks) => multiset(chunks)
    case _ => multiset{}
  }

  /** The manifest a debit is drawn on. */
  function DebitKey(t: Thread): Option<Key> {
    match t
    case Dropping(k, _, _, _) => Some(k)
    case RenameDouble(_, to, _, _, _) => Some(to)
    case _ => None
  }

  // ---- steps ----

  /** Some thread has a handle on the mutex: its strong count exceeds one. */
  predicate Live(threads: seq<Thread>, l: LockId) {
    exists i :: 0 <= i < |threads| && HasHandle(threads[i], l)
  }

  predicate HasHandle(t: Thread, l: LockId) {
    exists h :: h in Handles(t) && h.1 == l
  }

  /** The lock table after pruning, when it has grown. */
  function Pruned(s: State): map<Key, LockId> {
    if |s.locks| > PRUNE_LIMIT then map k | k in s.locks && Live(s.threads, s.locks[k]) :: s.locks[k]
    else s.locks
  }

  /** `key_lock`: the mutex of the key, created on demand. */
  function KeyLock(s: State, key: Key): (r: (State, LockId))
    ensures r.0 == s.(locks := r.0.locks, nextLock := r.0.nextLock)
  {
    var kept := Pruned(s);
    if key in kept then (s.(locks := kept), kept[key])
    else (s.(locks := kept[key := s.nextLock], nextLock := s.nextLock + 1), s.nextLock)
  }

  /** What one step does to the shared state, under the lock it needs. */
  datatype Effect =
    | Nothing
    | Obtain(key: Key)
    | Acquire(mutex: (Key, LockId))
    | Release(mutex: (Key, LockId))
    | TakeRef(id: ChunkId, path: Bytes)
    | DropRef(id: ChunkId)
    | Put(key: Key, chunks: seq<ChunkId>)
    | Remove(key: Key)
    | Leak(refs: seq<ChunkId>)

  /** What a session does next is its caller's choice; other threads have none. */
  datatype Choice = Flush(id: ChunkId, path: Bytes) | Finish | Abort | Drop

  /** The key whose mutex a thread asks the table for next. */
  function Asks(t: Thread): Option<Key> {
    match t
    case UploadStart(key) => Some(key)
    case DeleteStart(key) => Some(key)
    case RenameStart(from, to) => Some(First(from, to))
    case RenameHalf(from, to, _) => Some(Second(from, to))
    case _ => None
  }

  /** Where a thread goes next and what it does on the way, given the manifests
      it sees and the mutex `got` that the table answers with. */
  function Move(t: Thread, m: ChunkLists, got: LockId, c: Choice): (Thread, Effect) {
    match t
    case UploadStart(key) => (Uploading(key, got, []), Obtain(key))
    case Uploading(key, l, refs) =>
      (match c
       case Flush(id, path) => (Uploading(key, l, refs + [id]), TakeRef(id, path))
       case Abort => (Aborting(key, l, refs), Nothing)
       case Drop => (Done(GivenUp), Leak(refs))
       case Finish => (AwaitCommit(key, l, refs), Nothing))
    case AwaitCommit(key, l, refs) => (Committing(key, l, refs), Acquire((key, l)))
    case Committing(key, l, refs) =>
      (Publishing(key, l, refs, if key in m then Some(m[key]) else None), Nothing)
    case Publishing(key, l, refs, previous) =>
      (Releasing(key, l, refs, if previous.Some? then previous.value else []), Put(key, refs))
    case Releasing(key, l, refs, pending) =>
      if pending == [] then (Done(Committed(refs)), Release((key, l)))
      else (Releasing(key, l, refs, pending[1..]), DropRef(pending[0]))
    case Aborting(key, l, refs) =>
      if refs == [] then (Done(GivenUp), Nothing) else (Aborting(key, l, refs[1..]), DropRef(refs[0]))
    case DeleteStart(key) => (AwaitDelete(key, got), Obtain(key))
    case AwaitDelete(key, l) => (Deleting(key, l), Acquire((key, l)))
    case Deleting(key, l) =>
      if key in m then (Dropping(key, l, m[key], 0), Nothing) else (Leaving(key, l, Removed(false)), Nothing)
    case Dropping(key, l, chunks, done) =>
      if done < |chunks| then (Dropping(key, l, chunks, done + 1), DropRef(chunks[done]))
      else (Leaving(key, l, Removed(true)), Remove(key))
    case Leaving(key, l, answer) => (Done(answer), Release((key, l)))
    case RenameStart(from, to) => (RenameHalf(from, to, got), Obtain(First(from, to)))
    case RenameHalf(from, to, l1) => (AwaitFirst(from, to, l1, got), Obtain(Second(from, to)))
    case AwaitFirst(from, to, l1, l2) => (AwaitSecond(from, to, l1, l2), Acquire((First(from, to), l1)))
    case AwaitSecond(from, to, l1, l2) => (Renaming(from, to, l1, l2), Acquire((Second(from, to), l2)))
    case Renaming(from, to, l1, l2) =>
      if from in m then (RenameFound(from, to, l1, l2, m[from]), Nothing)
      else (LeavingBoth(from, to, l1, l2, NoSource), Nothing)
    case RenameFound(from, to, l1, l2, chunks) =>
      if to in m then (LeavingBoth(from, to, l1, l2, TargetTaken), Nothing)
      else (RenamePut(from, to, l1, l2, chunks), Nothing)
    case RenamePut(from, to, l1, l2, chunks) => (RenameDouble(from, to, l1, l2, chunks), Put(to, chunks))
    case RenameDouble(from, to, l1, l2, chunks) => (LeavingBoth(from, to, l1, l2, Moved(chunks)), Remove(from))
    case LeavingBoth(from, to, l1, l2, answer) =>
      (LeavingFirst(from, to, l1, answer), Release((Second(from, to), l2)))
    case LeavingFirst(from, to, l1, answer) => (Done(answer), Release((First(from, to), l1)))
    case Done(answer) => (Done(answer), Nothing)
  }

  /** The shared state after an effect; `None` while a mutex is held. */
  function Perform(s: State, tid: nat, e: Effect): (r: Option<State>)
    ensures r.Some? ==> r.value.threads == s.threads
  {
    match e
    case Nothing => Some(s)
    case Obtain(key) => Some(KeyLock(s, key).0)
    case Acquire(h) => if h.1 in s.holder then None else Some(s.(holder := s.holder[h.1 := tid]))
    case Release(h) => Some(s.(holder := s.holder - {h.1}))
    case TakeRef(id, path) => Some(s.(locations := AddRef(s.locations, id, path)))
    case DropRef(id) => Some(s.(locations := IndexModel.DropRef(s.locations, id)))
    case Put(key, chunks) => Some(s.(manifests := s.manifests[key := chunks]))
    case Remove(key) => Some(s.(manifests := s.manifests - {key}))
    case Leak(refs) => Some(s.(leaked := s.leaked + multiset(refs)))
  }

  /** The mutex the table would answer a thread with. */
  function Got(s: State, t: Thread): LockId {
    if Asks(t).Some? then KeyLock(s, Asks(t).value).1 else 0
  }

  function Planned(s: State, tid: nat, c: Choice): (Thread, Effect)
    requires tid < |s.threads|
  {
    Move(s.threads[tid], s.manifests, Got(s, s.threads[tid]), c)
  }

  /** One step of a thread; `None` when it cannot take it now. */
  function Advance(s: State, tid: nat, c: Choice): Option<State>
    requires tid < |s.threads|
  {
    var (t, e) := Planned(s, tid, c);
    var after := Perform(s, tid, e);
    if s.threads[tid].Done? || after == None then None
    else Some(after.value.(threads := s.threads[tid := t]))
  }

  /** A new operation arrives, or a thread takes a step. */
  datatype Action = Spawn(op: Thread) | Step(tid: nat, choice: Choice)

  predicate Starts(t: Thread) {
    t.UploadStart? || t.DeleteStart? || (t.RenameStart? && t.from != t.to)
  }

  function Next(s: State, a: Action): Option<State> {
    match a
    case Spawn(op) => if Starts(op) then Some(s.(threads := s.threads + [op])) else None
    case Step(tid, c) => if tid < |s.threads| then Advance(s, tid, c) else None
  }

  /** The state after a run, if every action of it was possible. */
  function RunFrom(s: State, actions: seq<Action>): Option<State>
    decreases |actions|
  {
    if actions == [] then Some(s)
    else match Next(s, actions[0])
      case None => None
      case Some(s') => RunFrom(s', actions[1..])
  }

  // ---- invariants ----

  /** A thread's well-formedness, and what it has read from the index and can
      rely on because it owns the key. */
  ghost predicate Facts(m: ChunkLists, t: Thread) {
    match t
    case Publishing(k, _, _, previous) => previous == if k in m then Some(m[k]) else None
    case Releasing(k, _, refs, _) => k in m && m[k] == refs
    case Dropping(k, _, chunks, done) => k in m && m[k] == chunks && done <= |chunks|
    case Leaving(k, _, _) => k !in m
    case RenameStart(from, to) => from != to
    case RenameHalf(from, to, _) => from != to
    case AwaitFirst(from, to, _, _) => from != to
    case AwaitSecond(from, to, _, _) => from != to
    case Renaming(from, to, _, _) => from != to
    case RenameFound(from, to, _, _, chunks) => from != to && from in m && m[from] == chunks
    case RenamePut(from, to, _, _, chunks) => from != to && from in m && m[from] == chunks && to !in m
    case RenameDouble(from, to, _, _, chunks) =>
      from != to && from in m && to in m && m[from] == chunks && m[to] == chunks
    case LeavingBoth(from, to, _, _, answer) =>
      from != to && (answer.Moved? ==> from !in m && to in m && m[to] == answer.chunks)
    case LeavingFirst(from, to, _, answer) =>
      && from != to
      && (answer.Moved? && First(from, to) == from ==> from !in m)
      && (answer.Moved? && First(from, to) == to ==> to in m && m[to] == answer.chunks)
    case _ => true
  }

  /** Every live handle is the mutex in the table, and the table is injective. */
  ghost predicate TableInv(s: State) {
    && (forall i, h :: 0 <= i < |s.threads| && h in Handles(s.threads[i]) ==> h.0 in s.locks && s.locks[h.0] == h.1)
    && (forall k :: k in s.locks ==> s.locks[k] < s.nextLock)
    && (forall j, k :: j in s.locks && k in s.locks && s.locks[j] == s.locks[k] ==> j == k)
  }

  /** A mutex is marked with the one thread that has locked it. */
  ghost predicate HolderInv(s: State) {
    && (forall i, h :: 0 <= i < |s.threads| && h in Owned(s.threads[i]) ==> h.1 in s.holder && s.holder[h.1] == i)
    && (forall l :: l in s.holder ==>
          s.holder[l] < |s.threads| && exists h :: h in Owned(s.threads[s.holder[l]]) && h.1 == l)
  }

  ghost predicate FactsInv(s: State) {
    forall i :: 0 <= i < |s.threads| ==> Facts(s.manifests, s.threads[i])
  }

  ghost function Credits(threads: seq<Thread>): seq<multiset<ChunkId>> {
    seq(|threads|, i requires 0 <= i < |threads| => Credit(threads[i]))
  }

  ghost function Debits(threads: seq<Thread>): seq<multiset<ChunkId>> {
    seq(|threads|, i requires 0 <= i < |threads| => Debit(threads[i]))
  }

  ghost predicate Booked(s: State, id: ChunkId) {
    RefCount(s.locations, id) + Sum(Debits(s.threads))[id] ==
    Occurrences(s.manifests)[id] + Sum(Credits(s.threads))[id] + s.leaked[id]
  }

  /** Each count is exactly the occurrences in visible manifests, plus what
      sessions and pending releases hold and dropped sessions left, minus
      decrements already done by deletes in flight and double entries of renames
      in flight. */
  ghost predicate BooksInv(s: State) {
    && Positive(s.locations)
    && (forall id :: Booked(s, id))
  }

  ghost predicate Inv(s: State) {
    TableInv(s) && HolderInv(s) && FactsInv(s) && BooksInv(s)
  }

  // ---- mutual exclusion ----

  lemma OwnedAreHandles(t: Thread)
    ensures Owned(t) <= Handles(t)
  {
  }

  /** All live handles for one key are the same mutex. */
  lemma SameMutex(s: State, i: nat, j: nat, key: Key, l: LockId, l': LockId)
    requires TableInv(s) && i < |s.threads| && j < |s.threads|
    requires (key, l) in Handles(s.threads[i]) && (key, l') in Handles(s.threads[j])
    ensures l == l'
  {
    hide Handles;
    assert (key, l).0 in s.locks && s.locks[(key, l).0] == l;
    assert (key, l').0 in s.locks && s.locks[(key, l').0] == l';
  }

  /** At most one operation works on a key at a time. */
  lemma Exclusive(s: State, i: nat, j: nat, key: Key, l: LockId, l': LockId)
    requires TableInv(s) && HolderInv(s) && i < |s.threads| && j < |s.threads|
    requires (key, l) in Owned(s.threads[i]) && (key, l') in Owned(s.threads[j])
    ensures i == j
  {
    hide Handles, Owned;
    OwnedAreHandles(s.threads[i]);
    OwnedAreHandles(s.threads[j]);
    SameMutex(s, i, j, key, l, l');
    assert s.holder[(key, l).1] == i;
    assert s.holder[(key, l').1] == j;
  }

  // ---- one thread's move ----

  predicate InRename(t: Thread) {
    || t.RenameStart? || t.RenameHalf? || t.AwaitFirst? || t.AwaitSecond? || t.Renaming? || t.RenameFound?
    || t.RenamePut? || t.RenameDouble? || t.LeavingBoth? || t.LeavingFirst?
  }

  ghost predicate KeepsHandles(t: Thread, t': Thread, e: Effect, got: LockId) {
    if e.Obtain? then Asks(t) == Some(e.key) && Handles(t') == Handles(t) + {(e.key, got)}
    else Handles(t') <= Handles(t)
  }

  lemma MoveHandles(t: Thread, m: ChunkLists, got: LockId, c: Choice)
    ensures var (t', e) := Move(t, m, got, c);
      if e.Obtain? then Asks(t) == Some(e.key) && Handles(t') == Handles(t) + {(e.key, got)}
      else Handles(t') <= Handles(t)
  {
    hide First, Second, Move, Handles, InRename;
    if InRename(t) { RenameHandles(t, m, got, c); } else { OtherHandles(t, m, got, c); }
  }

  lemma RenameHandles(t: Thread, m: ChunkLists, got: LockId, c: Choice)
    requires InRename(t)
    ensures var (t', e) := Move(t, m, got, c); KeepsHandles(t, t', e, got)
  {
    hide First, Second;
  }

  lemma OtherHandles(t: Thread, m: ChunkLists, got: LockId, c: Choice)
    requires !InRename(t)
    ensures var (t', e) := Move(t, m, got, c); KeepsHandles(t, t', e, got)
  {
    hide First, Second;
  }

  /** A thread owns exactly what it has acquired and not released. */
  lemma MoveOwned(t: Thread, m: ChunkLists, got: LockId, c: Choice)
    requires Facts(m, t)
    ensures var (t', e) := Move(t, m, got, c);
      match e
      case Acquire(h) => Wanted(t) == Some(h) && Owned(t') == Owned(t) + {h}
      case Release(h) => h in Owned(t) && Owned(t') == Owned(t) - {h}
      case _ => Owned(t') == Owned(t)
  {
    hide First, Second, Owned, Wanted, Facts;
    var (t', e) := Move(t, m, got, c);
    match e
    case Acquire(h) => MoveAcquires(t, m, got, c);
    case Release(h) => MoveReleases(t, m, got, c);
    case _ => MoveKeepsOwned(t, m, got, c);
  }

  lemma MoveAcquires(t: Thread, m: ChunkLists, got: LockId, c: Choice)
    requires Move(t, m, got, c).1.Acquire?
    ensures var (t', e) := Move(t, m, got, c); Wanted(t) == Some(e.mutex) && Owned(t') == Owned(t) + {e.mutex}
  {
    hide First, Second;
    assert t.AwaitCommit? || t.AwaitDelete? || t.AwaitFirst? || t.AwaitSecond?;
  }

  lemma MoveReleases(t: Thread, m: ChunkLists, got: LockId, c: Choice)
    requires Facts(m, t) && Move(t, m, got, c).1.Release?
    ensures var (t', e) := Move(t, m, got, c); e.mutex in Owned(t) && Owned(t') == Owned(t) - {e.mutex}
  {
    assert t.LeavingBoth? || t.LeavingFirst? || t.Leaving? || t.Releasing?;
  }

  lemma MoveKeepsOwned(t: Thread, m: ChunkLists, got: LockId, c: Choice)
    requires var e := Move(t, m, got, c).1; !e.Acquire? && !e.Release?
    ensures Owned(Move(t, m, got, c).0) == Owned(t)
  {
    hide Move, Owned;
    if t.RenameStart? || t.RenameHalf? || t.Renaming? || t.RenameFound? || t.RenamePut? || t.RenameDouble? {
      RenameKeepsOwned(t, m, got, c);
    } else {
      OtherKeepsOwned(t, m, got, c);
    }
  }

  lemma RenameKeepsOwned(t: Thread, m: ChunkLists, got: LockId, c: Choice)
    requires t.RenameStart? || t.RenameHalf? || t.Renaming? || t.RenameFound? || t.RenamePut? || t.RenameDouble?
    ensures Owned(Move(t, m, got, c).0) == Owned(t)
  {
    hide First, Second;
  }

  lemma OtherKeepsOwned(t: Thread, m: ChunkLists, got: LockId, c: Choice)
    requires var e := Move(t, m, got, c).1; !e.Acquire? && !e.Release?
    requires !t.RenameStart? && !t.RenameHalf? && !t.Renaming? && !t.RenameFound? && !t.RenamePut? && !t.RenameDouble?
    ensures Owned(Move(t, m, got, c).0) == Owned(t)
  {
    hide First, Second;
  }

  /** The manifests after an effect. */
  ghost function After(m: ChunkLists, e: Effect): ChunkLists {
    match e
    case Put(key, chunks) => m[key := chunks]
    case Remove(key) => m - {key}
    case _ => m
  }

  ghost predicate OwnsKey(t: Thread, key: Key) {
    exists h :: h in Owned(t) && h.0 == key
  }

  lemma OwnsBoth(t: Thread, from: Key, to: Key, l1: LockId, l2: LockId)
    requires (First(from, to), l1) in Owned(t) && (Second(from, to), l2) in Owned(t)
    ensures OwnsKey(t, from) && OwnsKey(t, to)
  {
    hide Owned;
    assert (First(from, to), l1).0 == First(from, to);
    assert (Second(from, to), l2).0 == Second(from, to);
  }

  /** At work on the manifest of one key. */
  predicate OnOne(t: Thread) {
    t.Publishing? || t.Releasing? || t.Dropping? || t.Leaving?
  }

  /** At work on the manifests of both keys of a rename. */
  predicate OnBoth(t: Thread) {
    t.RenameFound? || t.RenamePut? || t.RenameDouble? || t.LeavingBoth?
  }

  /** The keys a thread has locked while it works on the manifests. */
  lemma Owns(t: Thread)
    requires OnOne(t) || OnBoth(t) || t.LeavingFirst?
    ensures OnOne(t) ==> OwnsKey(t, t.key)
    ensures OnBoth(t) ==> OwnsKey(t, t.from) && OwnsKey(t, t.to)
    ensures t.LeavingFirst? ==> OwnsKey(t, First(t.from, t.to))
  {
    if OnOne(t) {
      assert (t.key, t.lock) in Owned(t);
    } else if t.LeavingFirst? {
      assert (First(t.from, t.to), t.lock1) in Owned(t);
    } else {
      OwnsBoth(t, t.from, t.to, t.lock1, t.lock2);
    }
  }

  /** A thread changes only a manifest whose key it owns. */
  lemma MoveTouches(t: Thread, m: ChunkLists, got: LockId, c: Choice)
    ensures var e := Move(t, m, got, c).1; e.Put? || e.Remove? ==> OwnsKey(t, e.key)
  {
    hide First, Second, OwnsKey;
    var e := Move(t, m, got, c).1;
    if e.Put? || e.Remove? {
      assert t.Publishing? || t.Dropping? || t.RenamePut? || t.RenameDouble?;
      Owns(t);
    }
  }

  lemma MoveFacts(t: Thread, m: ChunkLists, got: LockId, c: Choice)
    requires Facts(m, t)
    ensures var (t', e) := Move(t, m, got, c); Facts(After(m, e), t')
  {
    hide First, Second;
  }

  // the references an effect moves

  ghost function Outgoing(m: ChunkLists, e: Effect): multiset<ChunkId> {
    if (e.Put? || e.Remove?) && e.key in m then multiset(m[e.key]) else multiset{}
  }

  ghost function Incoming(e: Effect): multiset<ChunkId> {
    match e
    case Put(_, chunks) => multiset(chunks)
    case Leak(refs) => multiset(refs)
    case _ => multiset{}
  }

  ghost function Taken(e: Effect): multiset<ChunkId> {
    if e.TakeRef? then multiset{e.id} else multiset{}
  }

  ghost function Dropped(e: Effect): multiset<ChunkId> {
    if e.DropRef? then multiset{e.id} else multiset{}
  }

  /** What is counted more, owed more or listed less of a chunk is counted less,
      owed less, held more, listed more or left behind. */
  ghost predicate Balance(t: Thread, m: ChunkLists, t': Thread, e: Effect, id: ChunkId) {
    Taken(e)[id] + Debit(t')[id] + Outgoing(m, e)[id] + Credit(t)[id] ==
    Dropped(e)[id] + Debit(t)[id] + Incoming(e)[id] + Credit(t')[id]
  }

  /** Every move is balanced, chunk by chunk. */
  lemma MoveBalanced(t: Thread, m: ChunkLists, got: LockId, c: Choice, id: ChunkId)
    requires Facts(m, t)
    ensures var (t', e) := Move(t, m, got, c); Balance(t, m, t', e, id)
  {
    hide First, Second, Facts, Debit, Credit, Move, Balance;
    if t.Releasing? || t.Aborting? {
      DrainBalanced(t, m, got, c, id);
    } else if t.Dropping? {
      DropBalanced(t, m, got, c, id);
    } else if t.Uploading? {
      UploadBalanced(t, m, got, c, id);
    } else if t.Publishing? {
      PublishBalanced(t, m, got, c, id);
    } else if t.RenamePut? || t.RenameDouble? {
      RenameBalanced(t, m, got, c, id);
    } else {
      QuietBalanced(t, m, got, c, id);
    }
  }

  lemma Head(s: seq<ChunkId>, id: ChunkId)
    requires s != []
    ensures multiset(s)[id] == multiset{s[0]}[id] + multiset(s[1..])[id]
  {
    assert s == [s[0]] + s[1..];
  }

  /** The references a thread is giving back one by one. */
  function Pending(t: Thread): seq<ChunkId>
    requires t.Releasing? || t.Aborting?
  {
    if t.Releasing? then t.pending else t.refs
  }

  lemma DrainMove(t: Thread, m: ChunkLists, got: LockId, c: Choice)
    requires t.Releasing? || t.Aborting?
    ensures var ((t', e), left) := (Move(t, m, got, c), Pending(t));
      && Credit(t) == multiset(left) && Debit(t) == Debit(t') == multiset{}
      && (left == [] ==> (e.Nothing? || e.Release?) && Credit(t') == multiset{})
      && (left != [] ==> e == DropRef(left[0]) && Credit(t') == multiset(left[1..]))
  {
    hide First, Second;
  }

  lemma DrainBalanced(t: Thread, m: ChunkLists, got: LockId, c: Choice, id: ChunkId)
    requires t.Releasing? || t.Aborting?
    ensures var (t', e) := Move(t, m, got, c); Balance(t, m, t', e, id)
  {
    hide First, Second, Balance, Taken, Dropped, Outgoing, Incoming, Move, Credit, Debit, Pending;
    var (t', e) := Move(t, m, got, c);
    var left := Pending(t);
    DrainMove(t, m, got, c);
    if left == [] {
      NothingMoved(m, e);
    } else {
      OnlyDropped(m, left[0]);
      Head(left, id);
    }
    Balanced(t, m, t', e, id);
  }

  lemma OnlyDropped(m: ChunkLists, id: ChunkId)
    ensures var e := DropRef(id);
      Taken(e) == Outgoing(m, e) == Incoming(e) == multiset{} && Dropped(e) == multiset{id}
  {
  }

  lemma Balanced(t: Thread, m: ChunkLists, t': Thread, e: Effect, id: ChunkId)
    requires Taken(e)[id] + Debit(t')[id] + Outgoing(m, e)[id] + Credit(t)[id] ==
             Dropped(e)[id] + Debit(t)[id] + Incoming(e)[id] + Credit(t')[id]
    ensures Balance(t, m, t', e, id)
  {
  }

  lemma DropBalanced(t: Thread, m: ChunkLists, got: LockId, c: Choice, id: ChunkId)
    requires t.Dropping? && Facts(m, t)
    ensures var (t', e) := Move(t, m, got, c); Balance(t, m, t', e, id)
  {
    hide First, Second, Balance, Taken, Dropped, Outgoing, Incoming;
    var (t', e) := Move(t, m, got, c);
    assert Credit(t) == Credit(t') == multiset{} && Debit(t) == multiset(t.chunks[..t.done]);
    if t.done < |t.chunks| {
      Last(t.chunks, t.done, id);
      assert e == DropRef(t.chunks[t.done]) && Debit(t') == multiset(t.chunks[..t.done + 1]);
      OnlyDropped(m, t.chunks[t.done]);
    } else {
      assert t.chunks[..t.done] == t.chunks;
      assert e == Remove(t.key) && Debit(t') == multiset{};
      OnlyRemoved(m, t.key);
    }
    Balanced(t, m, t', e, id);
  }

  lemma Last(s: seq<ChunkId>, n: nat, id: ChunkId)
    requires n < |s|
    ensures multiset(s[..n + 1])[id] == multiset(s[..n])[id] + multiset{s[n]}[id]
  {
    assert s[..n + 1] == s[..n] + [s[n]];
  }

  lemma OnlyRemoved(m: ChunkLists, key: Key)
    requires key in m
    ensures var e := Remove(key);
      Taken(e) == Dropped(e) == Incoming(e) == multiset{} && Outgoing(m, e) == multiset(m[key])
  {
  }

  lemma UploadBalanced(t: Thread, m: ChunkLists, got: LockId, c: Choice, id: ChunkId)
    requires t.Uploading?
    ensures var (t', e) := Move(t, m, got, c); Balance(t, m, t', e, id)
  {
    hide First, Second, Balance, Taken, Dropped, Outgoing, Incoming;
    var (t', e) := Move(t, m, got, c);
    assert Debit(t) == Debit(t') == multiset{} && Credit(t) == multiset(t.refs);
    match c {
      case Flush(x, path) =>
        OnlyTaken(m, x, path);
        assert e == TakeRef(x, path) && Credit(t') == multiset(t.refs + [x]) == Credit(t) + multiset{x};
      case Drop =>
        OnlyLeaked(m, t.refs);
        assert e == Leak(t.refs) && Credit(t') == multiset{};
      case _ =>
        NothingMoved(m, e);
    }
    Balanced(t, m, t', e, id);
  }

  lemma PublishBalanced(t: Thread, m: ChunkLists, got: LockId, c: Choice, id: ChunkId)
    requires Facts(m, t) && t.Publishing?
    ensures var (t', e) := Move(t, m, got, c); Balance(t, m, t', e, id)
  {
    hide First, Second, Balance, Taken, Dropped, Outgoing, Incoming;
    var (t', e) := Move(t, m, got, c);
    OnlyPut(m, t.key, t.refs);
    assert Debit(t) == Debit(t') == multiset{} && Credit(t) == multiset(t.refs) && Credit(t') == Outgoing(m, e);
    Balanced(t, m, t', e, id);
  }

  lemma OnlyPut(m: ChunkLists, key: Key, chunks: seq<ChunkId>)
    ensures var e := Put(key, chunks);
      && Taken(e) == Dropped(e) == multiset{} && Incoming(e) == multiset(chunks)
      && Outgoing(m, e) == if key in m then multiset(m[key]) else multiset{}
  {
  }

  lemma OnlyTaken(m: ChunkLists, id: ChunkId, path: Bytes)
    ensures var e := TakeRef(id, path);
      Dropped(e) == Outgoing(m, e) == Incoming(e) == multiset{} && Taken(e) == multiset{id}
  {
  }

  lemma OnlyLeaked(m: ChunkLists, refs: seq<ChunkId>)
    ensures var e := Leak(refs);
      Dropped(e) == Outgoing(m, e) == Taken(e) == multiset{} && Incoming(e) == multiset(refs)
  {
  }

  lemma RenameBalanced(t: Thread, m: ChunkLists, got: LockId, c: Choice, id: ChunkId)
    requires Facts(m, t) && (t.RenamePut? || t.RenameDouble?)
    ensures var (t', e) := Move(t, m, got, c); Balance(t, m, t', e, id)
  {
    hide First, Second, Balance;
    var (t', e) := Move(t, m, got, c);
    assert Credit(t) == Credit(t') == multiset{};
    if t.RenamePut? {
      OnlyPut(m, t.to, t.chunks);
      assert Debit(t') == multiset(t.chunks) && Debit(t) == multiset{};
    } else {
      assert Debit(t) == multiset(t.chunks) == Outgoing(m, e) && Debit(t') == multiset{};
    }
    Balanced(t, m, t', e, id);
  }

  lemma QuietBalanced(t: Thread, m: ChunkLists, got: LockId, c: Choice, id: ChunkId)
    requires Quiet(t)
    ensures var (t', e) := Move(t, m, got, c); Balance(t, m, t', e, id)
  {
    hide Quiet, Move, Credit, Debit, Taken, Outgoing, Dropped, Incoming;
    var (t', e) := Move(t, m, got, c);
    QuietMove(t, m, got, c);
    NothingMoved(m, e);
  }

  predicate Quiet(t: Thread) {
    && !t.Releasing? && !t.Aborting? && !t.Dropping?
    && !t.Uploading? && !t.Publishing? && !t.RenamePut? && !t.RenameDouble?
  }

  lemma QuietMove(t: Thread, m: ChunkLists, got: LockId, c: Choice)
    requires Quiet(t)
    ensures var (t', e) := Move(t, m, got, c);
      && Debit(t') == Debit(t) && Credit(t) == Credit(t')
      && (e.Nothing? || e.Obtain? || e.Acquire? || e.Release?)
  {
    hide Quiet, Move, Credit, Debit;
    QuietEffect(t, m, got, c);
    QuietDebit(t, m, got, c);
    QuietCredit(t, m, got, c);
  }

  lemma QuietEffect(t: Thread, m: ChunkLists, got: LockId, c: Choice)
    requires Quiet(t)
    ensures var e := Move(t, m, got, c).1; e.Nothing? || e.Obtain? || e.Acquire? || e.Release?
  {
    hide First, Second;
  }

  lemma QuietDebit(t: Thread, m: ChunkLists, got: LockId, c: Choice)
    requires Quiet(t)
    ensures Debit(Move(t, m, got, c).0) == Debit(t)
  {
    hide First, Second;
    if t.Deleting? && t.key in m { assert m[t.key][..0] == []; }
  }

  lemma QuietCredit(t: Thread, m: ChunkLists, got: LockId, c: Choice)
    requires Quiet(t)
    ensures Credit(Move(t, m, got, c).0) == Credit(t)
  {
    hide First, Second;
    if t.AwaitCommit? || t.Committing? {
      assert Credit(t) == multiset(t.refs);
    } else {
      assert Credit(t) == multiset{};
      NoCredit(t, m, got, c);
    }
  }

  lemma NoCredit(t: Thread, m: ChunkLists, got: LockId, c: Choice)
    requires Quiet(t) && !t.AwaitCommit? && !t.Committing?
    ensures Credit(Move(t, m, got, c).0) == multiset{}
  {
    hide First, Second;
  }

  lemma NothingMoved(m: ChunkLists, e: Effect)
    requires e.Nothing? || e.Obtain? || e.Acquire? || e.Release?
    ensures Taken(e) == Dropped(e) == Outgoing(m, e) == Incoming(e)
  {
  }

  // ---- the lock table ----

  /** Pruning never drops the mutex of a live handle. */
  lemma PruneKeepsLive(s: State)
    requires TableInv(s)
    ensures TableInv(s.(locks := Pruned(s)))
  {
    hide Handles;
    forall i, h | 0 <= i < |s.threads| && h in Handles(s.threads[i])
      ensures h.0 in Pruned(s) && Pruned(s)[h.0] == h.1
    {
      assert HasHandle(s.threads[i], h.1);
      assert Live(s.threads, s.locks[h.0]);
    }
  }

  lemma TableGrows(s: State, tid: nat, key: Key, t: Thread)
    requires TableInv(s) && tid < |s.threads|
    requires Handles(t) == Handles(s.threads[tid]) + {(key, KeyLock(s, key).1)}
    ensures TableInv(KeyLock(s, key).0.(threads := s.threads[tid := t]))
  {
    hide Handles, Pruned, KeyLock;
    PruneKeepsLive(s);
    LockAdded(s, key);
    var (s1, l) := KeyLock(s, key);
    var s' := s1.(threads := s.threads[tid := t]);
    forall i, h | 0 <= i < |s'.threads| && h in Handles(s'.threads[i])
      ensures h.0 in s'.locks && s'.locks[h.0] == h.1
    {
      if h != (key, l) {
        assert h in Handles(s.threads[i]);
        assert h.0 in Pruned(s);
      }
    }
  }

  /** The table keeps what pruning left and has a mutex of its own for the key. */
  lemma LockAdded(s: State, key: Key)
    requires TableInv(s.(locks := Pruned(s)))
    ensures var (s1, l) := KeyLock(s, key);
      && key in s1.locks && s1.locks[key] == l && s1.threads == s.threads
      && (forall k :: k in Pruned(s) ==> k in s1.locks && s1.locks[k] == Pruned(s)[k])
      && (forall k :: k in s1.locks ==> s1.locks[k] < s1.nextLock)
      && (forall j, k :: j in s1.locks && k in s1.locks && s1.locks[j] == s1.locks[k] ==> j == k)
  {
    hide Handles, Pruned;
  }

  lemma TableStays(s: State, s': State, tid: nat, t: Thread)
    requires TableInv(s) && tid < |s.threads| && s'.threads == s.threads[tid := t]
    requires s'.locks == s.locks && s'.nextLock == s.nextLock && Handles(t) <= Handles(s.threads[tid])
    ensures TableInv(s')
  {
    hide Handles;
    forall i, h | 0 <= i < |s'.threads| && h in Handles(s'.threads[i])
      ensures h.0 in s'.locks && s'.locks[h.0] == h.1
    {
      assert h in Handles(s.threads[i]);
    }
  }

  /** Every step keeps all live handles of a key the same mutex, pruning included. */
  lemma StepKeepsTable(s: State, tid: nat, c: Choice)
    requires TableInv(s) && tid < |s.threads| && Advance(s, tid, c).Some?
    ensures TableInv(Advance(s, tid, c).value)
  {
    hide Handles, KeyLock, Move, Asks, AddRef, IndexModel.DropRef, TableInv;
    var t := s.threads[tid];
    MoveHandles(t, s.manifests, Got(s, t), c);
    var (t', e) := Planned(s, tid, c);
    if e.Obtain? {
      TableGrows(s, tid, e.key, t');
    } else {
      TableStays(s, Advance(s, tid, c).value, tid, t');
    }
  }

  // ---- who has locked what ----

  lemma HolderStays(s: State, s': State, tid: nat, t: Thread)
    requires HolderInv(s) && tid < |s.threads| && s'.threads == s.threads[tid := t]
    requires s'.holder == s.holder && Owned(t) == Owned(s.threads[tid])
    ensures HolderInv(s')
  {
    hide Owned;
    forall l | l in s'.holder
      ensures s'.holder[l] < |s'.threads| && exists h :: h in Owned(s'.threads[s'.holder[l]]) && h.1 == l
    {
      var h :| h in Owned(s.threads[s.holder[l]]) && h.1 == l;
      assert h in Owned(s'.threads[s'.holder[l]]);
    }
  }

  lemma HolderGains(s: State, s': State, tid: nat, t: Thread, h: (Key, LockId))
    requires HolderInv(s) && tid < |s.threads| && s'.threads == s.threads[tid := t]
    requires h.1 !in s.holder && s'.holder == s.holder[h.1 := tid]
    requires Owned(t) == Owned(s.threads[tid]) + {h}
    ensures HolderInv(s')
  {
    hide Owned;
    assert h in Owned(t);
    forall i, g | 0 <= i < |s'.threads| && g in Owned(s'.threads[i])
      ensures g.1 in s'.holder && s'.holder[g.1] == i
    {
      if i != tid || g != h { assert g in Owned(s.threads[i]); }
    }
    forall l | l in s'.holder
      ensures s'.holder[l] < |s'.threads| && exists g :: g in Owned(s'.threads[s'.holder[l]]) && g.1 == l
    {
      if l != h.1 {
        var g :| g in Owned(s.threads[s.holder[l]]) && g.1 == l;
        assert g in Owned(s'.threads[s'.holder[l]]);
      }
    }
  }

  lemma HolderLoses(s: State, s': State, tid: nat, t: Thread, h: (Key, LockId))
    requires HolderInv(s) && tid < |s.threads| && s'.threads == s.threads[tid := t]
    requires s'.holder == s.holder - {h.1} && h in Owned(s.threads[tid])
    requires Owned(t) == Owned(s.threads[tid]) - {h}
    requires forall g :: g in Owned(t) ==> g.1 != h.1
    ensures HolderInv(s')
  {
    hide Owned;
    forall i, g | 0 <= i < |s'.threads| && g in Owned(s'.threads[i])
      ensures g.1 in s'.holder && s'.holder[g.1] == i
    {
      assert g in Owned(s.threads[i]);
    }
    forall l | l in s'.holder
      ensures s'.holder[l] < |s'.threads| && exists g :: g in Owned(s'.threads[s'.holder[l]]) && g.1 == l
    {
      var g :| g in Owned(s.threads[s.holder[l]]) && g.1 == l;
      assert g in Owned(s'.threads[s'.holder[l]]);
    }
  }

  /** Different keys have different mutexes. */
  lemma KeyOfMutex(s: State, i: nat, j: nat, h: (Key, LockId), g: (Key, LockId))
    requires TableInv(s) && i < |s.threads| && j < |s.threads|
    requires h in Handles(s.threads[i]) && g in Handles(s.threads[j]) && h.1 == g.1
    ensures h == g
  {
    hide Handles;
  }

  /** Every step keeps each locked mutex with the one thread that locked it. */
  lemma StepKeepsHolder(s: State, tid: nat, c: Choice)
    requires TableInv(s) && HolderInv(s) && FactsInv(s) && tid < |s.threads| && Advance(s, tid, c).Some?
    ensures HolderInv(Advance(s, tid, c).value)
  {
    hide Owned, Handles, Move, AddRef, IndexModel.DropRef, KeyLock, Facts, Got, HolderInv, TableInv;
    var s' := Advance(s, tid, c).value;
    var t := s.threads[tid];
    var (t', e) := Planned(s, tid, c);
    MoveOwned(t, s.manifests, Got(s, t), c);
    match e
    case Acquire(h) => HolderGains(s, s', tid, t', h);
    case Release(h) =>
      OwnedAreHandles(t);
      forall g | g in Owned(t') ensures g.1 != h.1 {
        if g.1 == h.1 { KeyOfMutex(s, tid, tid, g, h); }
      }
      HolderLoses(s, s', tid, t', h);
    case _ => HolderStays(s, s', tid, t');
  }

  // ---- what threads rely on ----

  /** What a thread relies on concerns only keys it owns. */
  lemma FactsLocal(t: Thread, m: ChunkLists, m': ChunkLists, key: Key)
    requires Facts(m, t) && !OwnsKey(t, key)
    requires m - {key} == m' - {key}
    ensures Facts(m', t)
  {
    hide OwnsKey;
    forall k | k != key ensures (k in m <==> k in m') && (k in m ==> m[k] == m'[k]) {
      assert k in m <==> k in m - {key};
      assert k in m' <==> k in m' - {key};
    }
    if OnOne(t) || OnBoth(t) || t.LeavingFirst? { Owns(t); }
  }

  /** At most one operation works on a key at a time. */
  lemma OneOwner(s: State, i: nat, j: nat, key: Key)
    requires TableInv(s) && HolderInv(s) && i < |s.threads| && j < |s.threads|
    requires OwnsKey(s.threads[i], key) && OwnsKey(s.threads[j], key)
    ensures i == j
  {
    hide Owned, TableInv, HolderInv;
    var g :| g in Owned(s.threads[i]) && g.0 == key;
    var h :| h in Owned(s.threads[j]) && h.0 == key;
    Exclusive(s, i, j, key, g.1, h.1);
  }

  /** No step of one thread disturbs what another has read. */
  lemma StepKeepsFacts(s: State, tid: nat, c: Choice)
    requires TableInv(s) && HolderInv(s) && FactsInv(s) && tid < |s.threads| && Advance(s, tid, c).Some?
    ensures FactsInv(Advance(s, tid, c).value)
  {
    hide Move, AddRef, IndexModel.DropRef, KeyLock, Facts, Got, TableInv, HolderInv, OwnsKey;
    var s' := Advance(s, tid, c).value;
    var t := s.threads[tid];
    var got := Got(s, t);
    var (t', e) := Planned(s, tid, c);
    MoveFacts(t, s.manifests, got, c);
    MoveTouches(t, s.manifests, got, c);
    assert s'.manifests == After(s.manifests, e);
    forall i | 0 <= i < |s'.threads| ensures Facts(s'.manifests, s'.threads[i]) {
      if i != tid && (e.Put? || e.Remove?) {
        if OwnsKey(s.threads[i], e.key) {
          OneOwner(s, i, tid, e.key);
        }
        assert s.manifests - {e.key} == s'.manifests - {e.key};
        FactsLocal(s.threads[i], s.manifests, s'.manifests, e.key);
      }
    }
  }

  // ---- the books ----

  lemma SumsMove(threads: seq<Thread>, tid: nat, t: Thread, id: ChunkId)
    requires tid < |threads|
    ensures var moved := threads[tid := t];
      && Sum(Credits(moved))[id] + Credit(threads[tid])[id] == Sum(Credits(threads))[id] + Credit(t)[id]
      && Sum(Debits(moved))[id] + Debit(threads[tid])[id] == Sum(Debits(threads))[id] + Debit(t)[id]
  {
    hide Credit, Debit, Sum;
    var moved := threads[tid := t];
    assert Credits(moved) == Credits(threads)[tid := Credit(t)];
    assert Debits(moved) == Debits(threads)[tid := Debit(t)];
    SumUpdate(Credits(threads), tid, Credit(t));
    SumUpdate(Debits(threads), tid, Debit(t));
  }

  lemma DebitIsDrawn(m: ChunkLists, t: Thread)
    requires Facts(m, t)
    ensures DebitKey(t) == None ==> Debit(t) == multiset{}
    ensures DebitKey(t).Some? ==>
      OwnsKey(t, DebitKey(t).value) && DebitKey(t).value in m && Debit(t) <= multiset(m[DebitKey(t).value])
  {
    hide OwnsKey;
    if t.Dropping? || t.RenameDouble? { Owns(t); }
    if t.Dropping? { assert t.chunks == t.chunks[..t.done] + t.chunks[t.done..]; }
  }

  /** What deletes and renames in flight owe is covered by the manifests they own. */
  lemma DebitsCovered(s: State)
    requires TableInv(s) && HolderInv(s) && FactsInv(s)
    ensures forall id :: Sum(Debits(s.threads))[id] <= Occurrences(s.manifests)[id]
  {
    hide Debit, DebitKey, Facts, OwnsKey, TableInv, HolderInv, Occurrences, Sum;
    var n := |s.threads|;
    var keys := seq(n, i requires 0 <= i < n => DebitKey(s.threads[i]));
    forall i | 0 <= i < n
      ensures if keys[i] == None then Debits(s.threads)[i] == multiset{}
        else OwnsKey(s.threads[i], keys[i].value) && keys[i].value in s.manifests &&
             Debits(s.threads)[i] <= multiset(s.manifests[keys[i].value])
    {
      DebitIsDrawn(s.manifests, s.threads[i]);
    }
    forall i, j | 0 <= i < j < n && keys[i].Some? ensures keys[i] != keys[j] {
      if keys[i] == keys[j] { OneOwner(s, i, j, keys[i].value); }
    }
    CoveredSum(s.manifests, Debits(s.threads), keys);
  }

  /** What an effect does to the manifests' occurrences. */
  lemma OccurrencesAfter(m: ChunkLists, e: Effect, id: ChunkId)
    ensures Occurrences(After(m, e))[id] + Outgoing(m, e)[id] ==
            Occurrences(m)[id] + (if e.Put? then Incoming(e)[id] else 0)
  {
    hide Occurrences;
    if e.Put? {
      OccurrencesPut(m, e.key, e.chunks);
      OccurrencesDelete(m, e.key);
    } else if e.Remove? {
      OccurrencesDelete(m, e.key);
    }
  }

  lemma TrackedCounts(l: Locations, id: ChunkId)
    requires Positive(l) && id in l
    ensures RefCount(l, id) >= 1
  {
  }

  /** What an effect does to a count, provided a dropped reference was counted. */
  lemma CountAfter(s: State, tid: nat, e: Effect, id: ChunkId)
    requires Positive(s.locations) && Perform(s, tid, e).Some?
    requires e.DropRef? ==> e.id in s.locations
    ensures var s' := Perform(s, tid, e).value;
      && Positive(s'.locations)
      && RefCount(s'.locations, id) + Dropped(e)[id] == RefCount(s.locations, id) + Taken(e)[id]
      && s'.manifests == After(s.manifests, e)
      && s'.leaked[id] == s.leaked[id] + (if e.Leak? then Incoming(e)[id] else 0)
  {
    hide KeyLock, AddRef, IndexModel.DropRef, RefCount, Positive;
    if e.TakeRef? { AddRefCount(s.locations, e.id, e.path); }
    if e.DropRef? {
      assert RefCount(s.locations, e.id) >= 1 by { TrackedCounts(s.locations, e.id); }
      DropRefCount(s.locations, e.id);
    }
  }

  /** No decrement ever meets a missing entry. */
  lemma NothingMissing(s: State, tid: nat, c: Choice)
    requires Inv(s) && tid < |s.threads| && Advance(s, tid, c).Some? && Planned(s, tid, c).1.DropRef?
    ensures Planned(s, tid, c).1.id in s.locations
  {
    hide Move, IndexModel.DropRef, KeyLock, Facts, TableInv, HolderInv, Occurrences;
    hide Sum, Debits, Credits, Credit, Debit, Got;
    var t := s.threads[tid];
    var (t', e) := Planned(s, tid, c);
    var s' := Advance(s, tid, c).value;
    StepKeepsTable(s, tid, c);
    StepKeepsHolder(s, tid, c);
    StepKeepsFacts(s, tid, c);
    DebitsCovered(s');
    SumsMove(s.threads, tid, t', e.id);
    MoveBalanced(t, s.manifests, Got(s, t), c, e.id);
    assert Booked(s, e.id);
  }

  lemma StepKeepsBooks(s: State, tid: nat, c: Choice)
    requires Inv(s) && tid < |s.threads| && Advance(s, tid, c).Some?
    ensures BooksInv(Advance(s, tid, c).value)
  {
    hide Move, KeyLock, Facts, TableInv, HolderInv, Occurrences, Sum, Debits, Credits, Credit, Debit, Got;
    hide Perform, RefCount, After, Outgoing, Taken, Dropped;
    var t := s.threads[tid];
    var (t', e) := Planned(s, tid, c);
    var s' := Advance(s, tid, c).value;
    if e.DropRef? { NothingMissing(s, tid, c); }
    CountAfter(s, tid, e, []);
    forall id ensures Booked(s', id) {
      assert Booked(s, id);
      SumsMove(s.threads, tid, t', id);
      MoveBalanced(t, s.manifests, Got(s, t), c, id);
      OccurrencesAfter(s.manifests, e, id);
      CountAfter(s, tid, e, id);
    }
  }

  /** Whatever step is taken, by whichever operation, everything is kept. */
  lemma NextKeepsInv(s: State, a: Action)
    requires Inv(s) && Next(s, a).Some?
    ensures Inv(Next(s, a).value)
  {
    hide Advance, TableInv, HolderInv, FactsInv, BooksInv;
    match a
    case Spawn(op) => SpawnKeepsInv(s, op);
    case Step(tid, c) =>
      StepKeepsTable(s, tid, c);
      StepKeepsHolder(s, tid, c);
      StepKeepsFacts(s, tid, c);
      StepKeepsBooks(s, tid, c);
  }

  lemma SpawnKeepsInv(s: State, op: Thread)
    requires Inv(s) && Starts(op)
    ensures Inv(s.(threads := s.threads + [op]))
  {
    hide TableInv, HolderInv, Booked, RefCount;
    var s' := s.(threads := s.threads + [op]);
    SpawnKeepsLocks(s, op);
    forall id ensures Booked(s', id) {
      assert Booked(s, id);
      SpawnKeepsBooks(s, op, id);
    }
  }

  lemma SpawnKeepsLocks(s: State, op: Thread)
    requires TableInv(s) && HolderInv(s) && Starts(op)
    ensures var s' := s.(threads := s.threads + [op]); TableInv(s') && HolderInv(s')
  {
    hide Handles, Owned;
    assert Handles(op) == {} && Owned(op) == {} by { StartsEmpty(op); }
    var s' := s.(threads := s.threads + [op]);
    forall l | l in s'.holder
      ensures s'.holder[l] < |s'.threads| && exists h :: h in Owned(s'.threads[s'.holder[l]]) && h.1 == l
    {
      var h :| h in Owned(s.threads[s.holder[l]]) && h.1 == l;
      assert h in Owned(s'.threads[s'.holder[l]]);
    }
  }

  lemma StartsEmpty(op: Thread)
    requires Starts(op)
    ensures Handles(op) == {} && Owned(op) == {} && Credit(op) == multiset{} && Debit(op) == multiset{}
  {
  }

  lemma SpawnKeepsBooks(s: State, op: Thread, id: ChunkId)
    requires Booked(s, id) && Starts(op)
    ensures Booked(s.(threads := s.threads + [op]), id)
  {
    hide Credit, Debit, Starts, Sum, RefCount;
    StartsEmpty(op);
    var threads := s.threads + [op];
    assert Credits(threads) == Credits(s.threads) + [multiset{}];
    assert Debits(threads) == Debits(s.threads) + [multiset{}];
    SumSnoc(Credits(s.threads), multiset{});
    SumSnoc(Debits(s.threads), multiset{});
  }

  /** An engine at rest: no operation in flight, and each count is the chunk's
      occurrences in manifests and among references left behind. */
  ghost predicate AtRest(s: State) {
    && s.threads == [] && s.locks == map[] && s.holder == map[]
    && Positive(s.locations)
    && (forall id :: RefCount(s.locations, id) == Occurrences(s.manifests)[id] + s.leaked[id])
  }

  lemma RestIsInv(s: State)
    requires AtRest(s)
    ensures Inv(s)
  {
    hide Occurrences;
    forall id ensures Booked(s, id) { assert RefCount(s.locations, id) == Occurrences(s.manifests)[id] + s.leaked[id]; }
  }

  lemma {:induction false} RunKeepsInv(s: State, actions: seq<Action>)
    requires Inv(s) && RunFrom(s, actions).Some?
    ensures Inv(RunFrom(s, actions).value)
    decreases |actions|
  {
    hide Next, Inv;
    if actions != [] {
      NextKeepsInv(s, actions[0]);
      RunKeepsInv(Next(s, actions[0]).value, actions[1..]);
    }
  }

  /** In every run from rest, over any number of interleaved operations, the
      references are conserved, no decrement the next step could make is of a
      missing entry, and no two operations work on the same key. */
  lemma Conserved(s: State, actions: seq<Action>)
    requires AtRest(s) && RunFrom(s, actions).Some?
    ensures var s' := RunFrom(s, actions).value;
      && (forall id :: Booked(s', id))
      && (forall tid, c :: 0 <= tid < |s'.threads| && Advance(s', tid, c).Some? && Planned(s', tid, c).1.DropRef? ==>
            Planned(s', tid, c).1.id in s'.locations)
      && (forall i, j, key :: 0 <= i < j < |s'.threads| ==>
            !(OwnsKey(s'.threads[i], key) && OwnsKey(s'.threads[j], key)))
  {
    RestIsInv(s);
    RunKeepsInv(s, actions);
    var s' := RunFrom(s, actions).value;
    hide RunFrom, AtRest, Advance, Planned, OwnsKey, TableInv, HolderInv, FactsInv, Booked;
    forall tid, c | 0 <= tid < |s'.threads| && Advance(s', tid, c).Some? && Planned(s', tid, c).1.DropRef?
      ensures Planned(s', tid, c).1.id in s'.locations
    {
      NothingMissing(s', tid, c);
    }
    forall i, j, key | 0 <= i < j < |s'.threads|
      ensures !(OwnsKey(s'.threads[i], key) && OwnsKey(s'.threads[j], key))
    {
      if OwnsKey(s'.threads[i], key) && OwnsKey(s'.threads[j], key) { OneOwner(s', i, j, key); }
    }
  }

  /** Nothing is half way through a delete or a rename. */
  ghost predicate Settled(s: State) {
    forall i :: 0 <= i < |s.threads| ==> Debit(s.threads[i]) == multiset{}
  }

  /** Then a chunk is tracked exactly when a manifest lists it, a session or a
      pending release holds it, or a dropped session left it. */
  lemma TrackedWhenSettled(s: State, id: ChunkId)
    requires Inv(s) && Settled(s)
    ensures id in s.locations <==>
      || (exists k :: k in s.manifests && id in s.manifests[k])
      || (exists i :: 0 <= i < |s.threads| && id in Credit(s.threads[i]))
      || id in s.leaked
  {
    hide TableInv, HolderInv, FactsInv, Debit, Credit, Occurrences, Sum;
    assert Booked(s, id);
    SumHolds(Debits(s.threads), id);
    SumHolds(Credits(s.threads), id);
    forall k | k in s.manifests && id in s.manifests[k] ensures id in Occurrences(s.manifests) {
      OccursWhenListed(s.manifests, k, id);
    }
    if id in Occurrences(s.manifests) { ListedWhenOccurs(s.manifests, id); }
    if i :| 0 <= i < |Credits(s.threads)| && id in Credits(s.threads)[i] { assert id in Credit(s.threads[i]); }
    if i :| 0 <= i < |s.threads| && id in Credit(s.threads[i]) { assert id in Credits(s.threads)[i]; }
  }

  // ---- no deadlock ----

  /** Holding or waiting for a mutex. */
  ghost predicate Engaged(t: Thread) {
    Wanted(t).Some? || Owned(t) != {}
  }

  predicate Waits(s: State, i: nat) {
    i < |s.threads| && Wanted(s.threads[i]).Some?
  }

  function WantedKey(t: Thread): Key {
    if Wanted(t).Some? then Wanted(t).value.0 else []
  }

  /** Among the first `n` threads, a waiting one whose key no other's exceeds. */
  lemma {:induction false} Greatest(s: State, n: nat) returns (w: nat)
    requires n <= |s.threads| && exists i :: 0 <= i < n && Waits(s, i)
    ensures w < n && Waits(s, w)
    ensures forall j :: 0 <= j < n && Waits(s, j) ==> !Less(WantedKey(s.threads[w]), WantedKey(s.threads[j]))
  {
    hide Wanted, WantedKey, Less;
    var last := n - 1;
    if exists i :: 0 <= i < last && Waits(s, i) {
      w := Greatest(s, last);
      var k, x := WantedKey(s.threads[w]), WantedKey(s.threads[last]);
      if Waits(s, last) && Less(k, x) {
        w := last;
        LessIrreflexive(x);
        forall j | 0 <= j < n && Waits(s, j) ensures !Less(x, WantedKey(s.threads[j])) {
          if j < last && Less(x, WantedKey(s.threads[j])) { LessTransitive(k, x, WantedKey(s.threads[j])); }
        }
      }
    } else {
      w := last;
      LessIrreflexive(WantedKey(s.threads[w]));
    }
  }

  /** A thread that waits while holding a mutex waits for a greater key. */
  lemma WaitsUpwards(m: ChunkLists, t: Thread, h: (Key, LockId))
    requires Facts(m, t) && Wanted(t).Some? && h in Owned(t)
    ensures Less(h.0, WantedKey(t))
  {
    assert t.AwaitSecond?;
    LessTotal(t.from, t.to);
  }

  lemma FreeToAdvance(s: State, tid: nat, c: Choice)
    requires FactsInv(s) && tid < |s.threads| && !s.threads[tid].Done?
    requires Wanted(s.threads[tid]).Some? ==> Wanted(s.threads[tid]).value.1 !in s.holder
    ensures Advance(s, tid, c).Some?
  {
    hide Move, Wanted, KeyLock, Owned, Facts;
    assert Facts(s.manifests, s.threads[tid]);
    MoveOwned(s.threads[tid], s.manifests, Got(s, s.threads[tid]), c);
  }

  /** Whenever operations hold or wait for key locks, one of them can proceed. */
  lemma SomeoneProceeds(s: State) returns (tid: nat)
    requires TableInv(s) && HolderInv(s) && FactsInv(s)
    requires exists i :: 0 <= i < |s.threads| && Engaged(s.threads[i])
    ensures tid < |s.threads| && Engaged(s.threads[tid]) && forall c :: Advance(s, tid, c).Some?
  {
    hide Wanted, Owned, Advance, Facts, Handles, Less, WantedKey;
    if i :| 0 <= i < |s.threads| && Engaged(s.threads[i]) && Wanted(s.threads[i]).None? {
      tid := i;
    } else {
      var i :| 0 <= i < |s.threads| && Engaged(s.threads[i]);
      assert Waits(s, i);
      tid := Greatest(s, |s.threads|);
      var h := Wanted(s.threads[tid]).value;
      if h.1 in s.holder {
        var j := s.holder[h.1];
        var g :| g in Owned(s.threads[j]) && g.1 == h.1;
        WantedIsHandle(s.threads[tid]);
        OwnedAreHandles(s.threads[j]);
        KeyOfMutex(s, tid, j, h, g);
        assert Engaged(s.threads[j]) && Waits(s, j);
        WaitsUpwards(s.manifests, s.threads[j], g);
        WantedKeyIs(s.threads[tid]);
      }
    }
    EngagedIsLive(s.threads[tid]);
    forall c ensures Advance(s, tid, c).Some? { FreeToAdvance(s, tid, c); }
  }

  lemma WantedKeyIs(t: Thread)
    requires Wanted(t).Some?
    ensures WantedKey(t) == Wanted(t).value.0
  {
  }

  lemma EngagedIsLive(t: Thread)
    requires Engaged(t)
    ensures !t.Done?
  {
  }

  lemma WantedIsHandle(t: Thread)
    requires Wanted(t).Some?
    ensures Wanted(t).value in Handles(t)
  {
    hide First, Second;
  }

  // ---- completion ----

  /** How many program points an operation is away from its end, at most. */
  ghost function Phase(t: Thread): nat {
    match t
    case UploadStart(_) => 6
    case Uploading(_, _, _) => 5
    case AwaitCommit(_, _, _) => 4
    case Committing(_, _, _) => 3
    case Publishing(_, _, _, _) => 2
    case Releasing(_, _, _, _) => 1
    case Aborting(_, _, _) => 1
    case DeleteStart(_) => 5
    case AwaitDelete(_, _) => 4
    case Deleting(_, _) => 3
    case Dropping(_, _, _, _) => 2
    case RenameStart(_, _) => 10
    case RenameHalf(_, _, _) => 9
    case AwaitFirst(_, _, _, _) => 8
    case AwaitSecond(_, _, _, _) => 7
    case Renaming(_, _, _, _) => 6
    case RenameFound(_, _, _, _, _) => 5
    case RenamePut(_, _, _, _, _) => 4
    case RenameDouble(_, _, _, _, _) => 3
    case LeavingBoth(_, _, _, _, _) => 2
    case LeavingFirst(_, _, _, _) => 1
    case Leaving(_, _, _) => 1
    case Done(_) => 0
  }

  /** References left to drop at the current program point. */
  ghost function Left(t: Thread): nat {
    match t
    case Releasing(_, _, _, pending) => |pending|
    case Aborting(_, _, refs) => |refs|
    case Dropping(_, _, chunks, done) => if done <= |chunks| then |chunks| - done else 0
    case _ => 0
  }

  /** Every step, with an upload finishing, is progress. */
  lemma MoveDescends(t: Thread, m: ChunkLists, got: LockId)
    requires !t.Done?
    ensures var t' := Move(t, m, got, Finish).0;
      Phase(t') < Phase(t) || (Phase(t') == Phase(t) && Left(t') < Left(t))
  {
    hide First, Second;
  }

  ghost function Phases(threads: seq<Thread>): nat {
    if threads == [] then 0 else Phase(threads[0]) + Phases(threads[1..])
  }

  ghost function Lefts(threads: seq<Thread>): nat {
    if threads == [] then 0 else Left(threads[0]) + Lefts(threads[1..])
  }

  lemma {:induction false} TotalsMove(threads: seq<Thread>, tid: nat, t: Thread)
    requires tid < |threads|
    ensures Phases(threads[tid := t]) + Phase(threads[tid]) == Phases(threads) + Phase(t)
    ensures Lefts(threads[tid := t]) + Left(threads[tid]) == Lefts(threads) + Left(t)
  {
    hide Phase, Left;
    if tid > 0 {
      TotalsMove(threads[1..], tid - 1, t);
      assert threads[tid := t][1..] == threads[1..][tid - 1 := t];
    } else {
      assert threads[0 := t][1..] == threads[1..];
    }
  }

  /** As long as some operation is not done, one can take a step. */
  lemma Ready(s: State) returns (tid: nat)
    requires Inv(s) && exists i :: 0 <= i < |s.threads| && !s.threads[i].Done?
    ensures tid < |s.threads| && !s.threads[tid].Done? && Advance(s, tid, Finish).Some?
  {
    hide Owned, Wanted, Advance, TableInv, HolderInv, FactsInv, BooksInv;
    if i :| 0 <= i < |s.threads| && Engaged(s.threads[i]) {
      tid := SomeoneProceeds(s);
      EngagedIsLive(s.threads[tid]);
    } else {
      tid :| 0 <= tid < |s.threads| && !s.threads[tid].Done?;
      FreeToAdvance(s, tid, Finish);
    }
  }

  ghost predicate StepsOnly(actions: seq<Action>) {
    forall i :: 0 <= i < |actions| ==> actions[i].Step?
  }

  /** From every reachable state all operations can run to their end. */
  lemma {:induction false} RunsToEnd(s: State) returns (actions: seq<Action>)
    requires Inv(s)
    ensures StepsOnly(actions) && RunFrom(s, actions).Some?
    ensures Inv(RunFrom(s, actions).value) && |RunFrom(s, actions).value.threads| == |s.threads|
    ensures forall i :: 0 <= i < |s.threads| ==> RunFrom(s, actions).value.threads[i].Done?
    decreases Phases(s.threads), Lefts(s.threads)
  {
    hide Inv, Move, Perform, Got, Phase, Left, Phases, Lefts;
    if i :| 0 <= i < |s.threads| && !s.threads[i].Done? {
      var tid := Ready(s);
      var s' := Advance(s, tid, Finish).value;
      NextKeepsInv(s, Step(tid, Finish));
      MoveDescends(s.threads[tid], s.manifests, Got(s, s.threads[tid]));
      TotalsMove(s.threads, tid, s'.threads[tid]);
      var rest := RunsToEnd(s');
      actions := [Step(tid, Finish)] + rest;
      assert actions[1..] == rest;
    } else {
      actions := [];
    }
  }

  /** And then the counts are the occurrences again, up to what dropped
      sessions left behind. */
  lemma RestAgain(s: State, id: ChunkId)
    requires Inv(s) && forall i :: 0 <= i < |s.threads| ==> s.threads[i].Done?
    ensures RefCount(s.locations, id) == Occurrences(s.manifests)[id] + s.leaked[id]
    ensures s.holder == map[]
  {
    hide TableInv, FactsInv, Occurrences, Sum, RefCount;
    assert Booked(s, id);
    SumHolds(Debits(s.threads), id);
    SumHolds(Credits(s.threads), id);
    forall l ensures l !in s.holder {
    }
  }
}
