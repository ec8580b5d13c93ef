/** What interleaved operations come to: every run has the answers and the
    manifests of its operations done one at a time, each somewhere between its
    start and its end. */
module Linearize {
  import opened Types
  import opened Refs
  import opened IndexModel
  import opened Protocol

  // ---- one operation at a time ----

  /** A completed operation, an upload with the chunks it had flushed. */
  datatype Work = Store(key: Key, chunks: seq<ChunkId>) | Delete(key: Key) | Rename(from: Key, to: Key)

  /** What the operation does to the manifests, and what it answers. */
  ghost function Alone(m: ChunkLists, w: Work): (ChunkLists, Answer) {
    match w
    case Store(key, chunks) => (m[key := chunks], Committed(chunks))
    case Delete(key) => (m - {key}, Removed(key in m))
    case Rename(from, to) =>
      if from !in m then (m, NoSource)
      else if to in m then (m, TargetTaken)
      else (m[to := m[from]] - {from}, Moved(m[from]))
  }

  datatype Event = Event(tid: nat, work: Work, answer: Answer)

  /** The manifests after a list of operations, one after the other. */
  ghost function AllAlone(m: ChunkLists, log: seq<Event>): ChunkLists {
    if log == [] then m else Alone(AllAlone(m, log[..|log| - 1]), log[|log| - 1].work).0
  }

  /** Each operation answers what it answers at its place in the list. */
  ghost predicate Sequential(m: ChunkLists, log: seq<Event>) {
    forall p :: 0 <= p < |log| ==> log[p].answer == Alone(AllAlone(m, log[..p]), log[p].work).1
  }

  lemma AloneSnoc(m: ChunkLists, log: seq<Event>, e: Event)
    requires Sequential(m, log) && e.answer == Alone(AllAlone(m, log), e.work).1
    ensures AllAlone(m, log + [e]) == Alone(AllAlone(m, log), e.work).0
    ensures Sequential(m, log + [e])
  {
    hide Alone;
    var longer := log + [e];
    assert longer[..|log|] == log;
    forall p | 0 <= p < |longer| ensures longer[p].answer == Alone(AllAlone(m, longer[..p]), longer[p].work).1 {
      if p < |log| { assert longer[..p] == log[..p]; }
    }
  }

  // ---- what was asked for ----

  /** The operations spawned by a run; thread `tid` runs the one at `tid`. */
  ghost function Ops(actions: seq<Action>): seq<Thread> {
    if actions == [] then []
    else
      var last := actions[|actions| - 1];
      Ops(actions[..|actions| - 1]) + if last.Spawn? then [last.op] else []
  }

  /** What the caller of a thread chose at each of its steps. */
  ghost function Choices(actions: seq<Action>, tid: nat): seq<Choice> {
    if actions == [] then []
    else
      var last := actions[|actions| - 1];
      Choices(actions[..|actions| - 1], tid) + if last.Step? && last.tid == tid then [last.choice] else []
  }

  /** The chunks a session flushes before it is finished, aborted or dropped. */
  ghost function Flushed(cs: seq<Choice>): seq<ChunkId> {
    if cs == [] || !cs[0].Flush? then [] else [cs[0].id] + Flushed(cs[1..])
  }

  /** How the session ends, if it does. */
  ghost function Verdict(cs: seq<Choice>): Option<Choice> {
    if cs == [] then None else if cs[0].Flush? then Verdict(cs[1..]) else Some(cs[0])
  }

  lemma {:induction false} VerdictSnoc(cs: seq<Choice>, c: Choice)
    ensures Verdict(cs + [c]) == if Verdict(cs).Some? then Verdict(cs) else if c.Flush? then None else Some(c)
    ensures Flushed(cs + [c]) ==
            if Verdict(cs) == None && c.Flush? then Flushed(cs) + [c.id] else Flushed(cs)
  {
    if cs == [] {
      assert [c][1..] == [];
    } else {
      VerdictSnoc(cs[1..], c);
      assert (cs + [c])[1..] == cs[1..] + [c];
    }
  }

  // ---- how far an operation has come ----

  /** The operation has taken effect with this result, or not yet. */
  type Outcome = Option<(Work, Answer)>

  /** The thread `t` runs the operation `op` of a caller who chose `cs`, and its
      effect is `mine`. A session makes its choices from its second step on. */
  ghost predicate Story(op: Thread, cs: seq<Choice>, t: Thread, mine: Outcome) {
    match op
    case UploadStart(key) => if cs == [] then t == op && mine == None else UploadStory(key, cs[1..], t, mine)
    case DeleteStart(key) => DeleteStory(key, t, mine)
    case RenameStart(from, to) => RenameStory(from, to, t, mine)
    case _ => false
  }

  ghost predicate UploadStory(key: Key, cs: seq<Choice>, t: Thread, mine: Outcome) {
    var chunks := Flushed(cs);
    match Verdict(cs)
    case None => t.Uploading? && t.key == key && t.refs == chunks && mine == None
    case Some(Finish) =>
      if t.AwaitCommit? || t.Committing? || t.Publishing? then t.key == key && t.refs == chunks && mine == None
      else
        && ((t.Releasing? && t.key == key && t.refs == chunks) || t == Done(Committed(chunks)))
        && mine == Some((Store(key, chunks), Committed(chunks)))
    case Some(Drop) => t == Done(GivenUp) && mine == None
    case _ => (t.Aborting? || t == Done(GivenUp)) && mine == None
  }

  /** What a session leaves behind: the chunks it had flushed, if it was dropped. */
  ghost function Abandoned(op: Thread, cs: seq<Choice>): multiset<ChunkId> {
    if op.UploadStart? && cs != [] && Verdict(cs[1..]) == Some(Drop) then multiset(Flushed(cs[1..])) else multiset{}
  }

  ghost predicate DeleteStory(key: Key, t: Thread, mine: Outcome) {
    match t
    case DeleteStart(k) => k == key && mine == None
    case AwaitDelete(k, _) => k == key && mine == None
    case Deleting(k, _) => k == key && mine == None
    case Dropping(k, _, _, _) => k == key && mine == None
    case Leaving(k, _, answer) => k == key && mine == Some((Delete(key), answer))
    case Done(answer) => mine == Some((Delete(key), answer))
    case _ => false
  }

  ghost predicate RenameStory(from: Key, to: Key, t: Thread, mine: Outcome) {
    match t
    case RenameStart(f, g) => f == from && g == to && mine == None
    case RenameHalf(f, g, _) => f == from && g == to && mine == None
    case AwaitFirst(f, g, _, _) => f == from && g == to && mine == None
    case AwaitSecond(f, g, _, _) => f == from && g == to && mine == None
    case Renaming(f, g, _, _) => f == from && g == to && mine == None
    case RenameFound(f, g, _, _, _) => f == from && g == to && mine == None
    case RenamePut(f, g, _, _, _) => f == from && g == to && mine == None
    case RenameDouble(f, g, _, _, _) => f == from && g == to && mine == None
    case LeavingBoth(f, g, _, _, answer) => f == from && g == to && mine == Some((Rename(from, to), answer))
    case LeavingFirst(f, g, _, answer) => f == from && g == to && mine == Some((Rename(from, to), answer))
    case Done(answer) => mine == Some((Rename(from, to), answer))
    case _ => false
  }

  /** The point at which an operation takes effect: where it finds nothing to do,
      or else its last change of a manifest. */
  ghost function Point(t: Thread, m: ChunkLists): Outcome {
    match t
    case Publishing(key, _, refs, _) => Some((Store(key, refs), Committed(refs)))
    case Deleting(key, _) => if key in m then None else Some((Delete(key), Removed(false)))
    case Dropping(key, _, chunks, done) => if done < |chunks| then None else Some((Delete(key), Removed(true)))
    case Renaming(from, to, _, _) => if from in m then None else Some((Rename(from, to), NoSource))
    case RenameFound(from, to, _, _, _) => if to in m then Some((Rename(from, to), TargetTaken)) else None
    case RenameDouble(from, to, _, _, chunks) => Some((Rename(from, to), Moved(chunks)))
    case _ => None
  }

  lemma MoveStory(op: Thread, cs: seq<Choice>, t: Thread, m: ChunkLists, got: LockId, c: Choice, mine: Outcome)
    requires Story(op, cs, t, mine) && !t.Done?
    ensures var p := Point(t, m);
      (p.Some? ==> mine == None) && Story(op, cs + [c], Move(t, m, got, c).0, if p.Some? then p else mine)
  {
    hide First, Second, Flushed, Verdict;
    match op
    case UploadStart(key) => MoveUpload(key, cs, t, m, got, c, mine);
    case DeleteStart(key) => MoveDelete(key, t, m, got, c, mine);
    case RenameStart(from, to) => MoveRename(from, to, t, m, got, c, mine);
    case _ =>
  }

  lemma MoveUpload(key: Key, cs: seq<Choice>, t: Thread, m: ChunkLists, got: LockId, c: Choice, mine: Outcome)
    requires Story(UploadStart(key), cs, t, mine) && !t.Done?
    ensures var p := Point(t, m);
      (p.Some? ==> mine == None)
      && Story(UploadStart(key), cs + [c], Move(t, m, got, c).0, if p.Some? then p else mine)
  {
    hide First, Second, Flushed, Verdict;
    if cs == [] {
      assert (cs + [c])[1..] == [];
      assert Verdict([]) == None && Flushed([]) == [] by { NoChoices(); }
    } else {
      assert (cs + [c])[1..] == cs[1..] + [c];
      VerdictSnoc(cs[1..], c);
    }
  }

  /** Only the drop of a session leaves references behind, and it leaves all. */
  lemma MoveLeaves(op: Thread, cs: seq<Choice>, t: Thread, m: ChunkLists, got: LockId, c: Choice, mine: Outcome)
    requires Story(op, cs, t, mine) && !t.Done?
    ensures var e := Move(t, m, got, c).1;
      Abandoned(op, cs + [c]) == Abandoned(op, cs) + (if e.Leak? then multiset(e.refs) else multiset{})
  {
    hide Move, Flushed, Verdict, UploadStory, DeleteStory, RenameStory;
    OnlyDropLeaves(t, m, got, c);
    if op.UploadStart? && cs != [] {
      assert (cs + [c])[1..] == cs[1..] + [c];
      ChoosesOn(op.key, cs[1..], t, c, mine);
    } else if op.UploadStart? {
      assert (cs + [c])[1..] == [];
      NoChoices();
    } else {
      NoUpload(op, cs, t, mine);
    }
  }

  lemma ChoosesOn(key: Key, cs: seq<Choice>, t: Thread, c: Choice, mine: Outcome)
    requires UploadStory(key, cs, t, mine) && !t.Done?
    ensures Verdict(cs) != Some(Drop)
    ensures Verdict(cs + [c]) == Some(Drop) <==> t.Uploading? && c == Drop
    ensures t.Uploading? ==> Flushed(cs) == t.refs && (c == Drop ==> Flushed(cs + [c]) == t.refs)
  {
    hide Flushed, Verdict;
    VerdictSnoc(cs, c);
  }

  lemma NoUpload(op: Thread, cs: seq<Choice>, t: Thread, mine: Outcome)
    requires Story(op, cs, t, mine) && !op.UploadStart?
    ensures !t.Uploading?
  {
  }

  lemma OnlyDropLeaves(t: Thread, m: ChunkLists, got: LockId, c: Choice)
    ensures var e := Move(t, m, got, c).1;
      (e.Leak? <==> t.Uploading? && c == Drop) && (e.Leak? ==> e.refs == t.refs)
  {
    hide First, Second;
  }

  lemma NoChoices()
    ensures Verdict([]) == None && Flushed([]) == []
  {
  }

  lemma MoveDelete(key: Key, t: Thread, m: ChunkLists, got: LockId, c: Choice, mine: Outcome)
    requires DeleteStory(key, t, mine) && !t.Done?
    ensures var p := Point(t, m);
      (p.Some? ==> mine == None) && DeleteStory(key, Move(t, m, got, c).0, if p.Some? then p else mine)
  {
    hide First, Second;
  }

  lemma MoveRename(from: Key, to: Key, t: Thread, m: ChunkLists, got: LockId, c: Choice, mine: Outcome)
    requires RenameStory(from, to, t, mine) && !t.Done?
    ensures var p := Point(t, m);
      (p.Some? ==> mine == None) && RenameStory(from, to, Move(t, m, got, c).0, if p.Some? then p else mine)
  {
    hide First, Second;
  }

  // ---- the manifests as the operations that took effect left them ----

  /** The keys a rename in flight has put but not yet moved away from. */
  ghost function Doubled(threads: seq<Thread>): set<Key> {
    set i | 0 <= i < |threads| && threads[i].RenameDouble? :: threads[i].to
  }

  ghost function Visible(s: State): ChunkLists {
    s.manifests - Doubled(s.threads)
  }

  /** A key that a thread owns has not been doubled by another one. */
  lemma NotDoubled(s: State, tid: nat, key: Key)
    requires TableInv(s) && HolderInv(s) && tid < |s.threads| && OwnsKey(s.threads[tid], key)
    requires s.threads[tid].RenameDouble? ==> s.threads[tid].to != key
    ensures key !in Doubled(s.threads)
  {
    hide TableInv, HolderInv, OwnsKey;
    if i :| 0 <= i < |s.threads| && s.threads[i].RenameDouble? && s.threads[i].to == key {
      Owns(s.threads[i]);
      OneOwner(s, i, tid, key);
    }
  }

  /** Only the thread that steps may double a key or cease to. */
  lemma DoubledMoves(s: State, tid: nat, t: Thread)
    requires TableInv(s) && HolderInv(s) && tid < |s.threads|
    requires !(s.threads[tid].RenameDouble? && t.RenameDouble?)
    ensures Redoubled(s.threads[tid], t, Doubled(s.threads), Doubled(s.threads[tid := t]))
  {
    hide TableInv, HolderInv, OwnsKey;
    var threads, after := s.threads, s.threads[tid := t];
    if threads[tid].RenameDouble? {
      forall i | 0 <= i < |threads| && i != tid && threads[i].RenameDouble? ensures threads[i].to != threads[tid].to {
        Owns(threads[i]);
        Owns(threads[tid]);
        if threads[i].to == threads[tid].to { OneOwner(s, i, tid, threads[i].to); }
      }
    }
    forall k ensures k in Doubled(after) ==> k in Doubled(threads) || (t.RenameDouble? && k == t.to) {
      if i :| 0 <= i < |after| && after[i].RenameDouble? && after[i].to == k {
        if i != tid { assert threads[i].RenameDouble?; }
      }
    }
    forall i | 0 <= i < |threads| && i != tid && threads[i].RenameDouble? ensures threads[i].to in Doubled(after) {
      assert after[i] == threads[i];
    }
    if t.RenameDouble? { assert after[tid].to in Doubled(after); }
  }

  lemma Apart(m: ChunkLists, key: Key, chunks: seq<ChunkId>, d: set<Key>)
    requires key !in d
    ensures m[key := chunks] - d == (m - d)[key := chunks]
    ensures m - {key} - d == m - d - {key}
    ensures key in m - d <==> key in m
    ensures key in m ==> (m - d)[key] == m[key]
  {
  }

  /** `d'` are the doubled keys after thread `t` has become `t'`. */
  ghost predicate Redoubled(t: Thread, t': Thread, d: set<Key>, d': set<Key>) {
    if t.RenameDouble? then !t'.RenameDouble? && t.to in d && d' == d - {t.to}
    else if t'.RenameDouble? then d' == d + {t'.to}
    else d' == d
  }

  /** No key the thread is at work on has been doubled, but by itself. */
  ghost predicate Undoubled(t: Thread, d: set<Key>) {
    && (OnOne(t) ==> t.key !in d)
    && (OnBoth(t) ==> t.from !in d && (!t.RenameDouble? ==> t.to !in d))
  }

  lemma MoveTakesEffect(t: Thread, m: ChunkLists, got: LockId, c: Choice, d: set<Key>, d': set<Key>)
    requires Facts(m, t) && Undoubled(t, d) && !t.Done?
    requires Redoubled(t, Move(t, m, got, c).0, d, d')
    ensures var after := After(m, Move(t, m, got, c).1) - d';
      match Point(t, m)
      case None => after == m - d
      case Some((work, answer)) => Alone(m - d, work) == (after, answer)
  {
    hide First, Second, Undoubled, Redoubled, Facts, Move, Alone;
    if t.Publishing? || t.Deleting? || t.Dropping? {
      OneKeyEffect(t, m, got, c, d, d');
    } else if t.Renaming? || t.RenameFound? || t.RenamePut? || t.RenameDouble? {
      RenameEffect(t, m, got, c, d, d');
    } else {
      NoEffect(t, m, got, c, d, d');
    }
  }

  lemma OneKeyEffect(t: Thread, m: ChunkLists, got: LockId, c: Choice, d: set<Key>, d': set<Key>)
    requires (t.Publishing? || t.Deleting? || t.Dropping?) && Facts(m, t) && Undoubled(t, d)
    requires Redoubled(t, Move(t, m, got, c).0, d, d')
    ensures var after := After(m, Move(t, m, got, c).1) - d';
      match Point(t, m)
      case None => after == m - d
      case Some((work, answer)) => Alone(m - d, work) == (after, answer)
  {
    hide First, Second;
    assert d' == d;
    if t.Publishing? {
      Apart(m, t.key, t.refs, d);
    } else if t.Dropping? {
      Apart(m, t.key, [], d);
    } else if t.key !in m {
      assert m - d - {t.key} == m - d;
    }
  }

  lemma RenameEffect(t: Thread, m: ChunkLists, got: LockId, c: Choice, d: set<Key>, d': set<Key>)
    requires (t.Renaming? || t.RenameFound? || t.RenamePut? || t.RenameDouble?) && Facts(m, t) && Undoubled(t, d)
    requires Redoubled(t, Move(t, m, got, c).0, d, d')
    ensures var after := After(m, Move(t, m, got, c).1) - d';
      match Point(t, m)
      case None => after == m - d
      case Some((work, answer)) => Alone(m - d, work) == (after, answer)
  {
    hide First, Second;
    if t.RenamePut? {
      assert m[t.to := t.chunks] - (d + {t.to}) == m - d;
    } else if t.RenameDouble? {
      assert (m - d)[t.to := m[t.from]] - {t.from} == m - {t.from} - (d - {t.to});
    }
  }

  lemma NoEffect(t: Thread, m: ChunkLists, got: LockId, c: Choice, d: set<Key>, d': set<Key>)
    requires !t.Publishing? && !t.Deleting? && !t.Dropping?
    requires !t.Renaming? && !t.RenameFound? && !t.RenamePut? && !t.RenameDouble?
    requires Redoubled(t, Move(t, m, got, c).0, d, d')
    ensures Point(t, m) == None && After(m, Move(t, m, got, c).1) - d' == m - d
  {
    hide First, Second;
  }

  /** A step changes what is visible exactly when its thread's operation takes
      effect, and then as the operation alone would; and that is its answer. */
  lemma TakesEffect(s: State, tid: nat, c: Choice)
    requires Inv(s) && tid < |s.threads| && Advance(s, tid, c).Some?
    ensures var s' := Advance(s, tid, c).value;
      match Point(s.threads[tid], s.manifests)
      case None => Visible(s') == Visible(s)
      case Some((work, answer)) => Alone(Visible(s), work) == (Visible(s'), answer)
  {
    hide TableInv, HolderInv, FactsInv, BooksInv, Doubled, Got, Move, Point, Facts, Undoubled, Perform, Redoubled;
    var t, m := s.threads[tid], s.manifests;
    var (t', e) := Planned(s, tid, c);
    var s' := Advance(s, tid, c).value;
    LeavesDouble(t, m, Got(s, t), c);
    DoubledMoves(s, tid, t');
    FactsOf(s, tid);
    StillUndoubled(s, tid);
    ManifestsAfter(s, tid, e);
    MoveTakesEffect(t, m, Got(s, t), c, Doubled(s.threads), Doubled(s'.threads));
  }

  lemma LeavesDouble(t: Thread, m: ChunkLists, got: LockId, c: Choice)
    ensures t.RenameDouble? ==> !Move(t, m, got, c).0.RenameDouble?
  {
  }

  lemma ManifestsAfter(s: State, tid: nat, e: Effect)
    requires Perform(s, tid, e).Some?
    ensures Perform(s, tid, e).value.manifests == After(s.manifests, e)
    ensures Perform(s, tid, e).value.threads == s.threads
  {
    hide KeyLock, AddRef, IndexModel.DropRef;
  }

  lemma FactsOf(s: State, tid: nat)
    requires FactsInv(s) && tid < |s.threads|
    ensures Facts(s.manifests, s.threads[tid])
  {
    hide Facts;
  }

  lemma StillUndoubled(s: State, tid: nat)
    requires TableInv(s) && HolderInv(s) && FactsInv(s) && tid < |s.threads|
    ensures Undoubled(s.threads[tid], Doubled(s.threads))
  {
    hide TableInv, HolderInv, FactsInv, OwnsKey, Doubled;
    var t := s.threads[tid];
    FactsOf(s, tid);
    if OnOne(t) || OnBoth(t) {
      Owns(t);
      if OnOne(t) { NotDoubled(s, tid, t.key); }
      if OnBoth(t) {
        NotDoubled(s, tid, t.from);
        if !t.RenameDouble? { NotDoubled(s, tid, t.to); }
      }
    }
  }

  // ---- whole runs ----

  /** The effect of an operation, if it is in the list. */
  ghost function Mine(log: seq<Event>, tid: nat): Outcome {
    if log == [] then None
    else
      var last := log[|log| - 1];
      if last.tid == tid then Some((last.work, last.answer)) else Mine(log[..|log| - 1], tid)
  }

  /** Thread `tid` is where its operation and the choices made for it have led. */
  ghost predicate Tells(actions: seq<Action>, threads: seq<Thread>, log: seq<Event>, tid: nat) {
    if tid < |Ops(actions)| && tid < |threads|
    then Story(Ops(actions)[tid], Choices(actions, tid), threads[tid], Mine(log, tid))
    else Choices(actions, tid) == [] && Mine(log, tid) == None
  }

  /** What each of the sessions of a run leaves behind. */
  ghost function AllAbandoned(actions: seq<Action>): seq<multiset<ChunkId>> {
    seq(|Ops(actions)|, i requires 0 <= i < |Ops(actions)| => Abandoned(Ops(actions)[i], Choices(actions, i)))
  }

  /** The references left behind are those there were and those of the sessions
      that were dropped. */
  ghost predicate Leaves(leaked: multiset<ChunkId>, actions: seq<Action>, leaked': multiset<ChunkId>) {
    forall id :: leaked'[id] == leaked[id] + Sum(AllAbandoned(actions))[id]
  }

  /** What is visible, and what the operations have answered, is what the listed
      operations do and answer one after the other: each operation is listed at
      most once, and it is listed once it has taken effect. */
  ghost predicate Explains(m: ChunkLists, actions: seq<Action>, s: State, log: seq<Event>) {
    && |Ops(actions)| == |s.threads|
    && (forall tid: nat :: Tells(actions, s.threads, log, tid))
    && (forall p, q :: 0 <= p < q < |log| ==> log[p].tid != log[q].tid)
    && Sequential(m, log) && Visible(s) == AllAlone(m, log)
  }

  lemma MineSnoc(log: seq<Event>, e: Event, tid: nat)
    ensures Mine(log + [e], tid) == if e.tid == tid then Some((e.work, e.answer)) else Mine(log, tid)
  {
    assert (log + [e])[..|log|] == log;
  }

  lemma {:induction false} MineAbsent(log: seq<Event>, tid: nat)
    requires Mine(log, tid) == None
    ensures forall p :: 0 <= p < |log| ==> log[p].tid != tid
  {
    if log != [] { MineAbsent(log[..|log| - 1], tid); }
  }

  lemma ActionsSnoc(actions: seq<Action>, a: Action)
    ensures Ops(actions + [a]) == if a.Spawn? then Ops(actions) + [a.op] else Ops(actions)
    ensures forall tid :: Choices(actions + [a], tid) ==
              if a.Step? && a.tid == tid then Choices(actions, tid) + [a.choice] else Choices(actions, tid)
  {
    assert (actions + [a])[..|actions|] == actions;
  }

  lemma SpawnExplained(m: ChunkLists, actions: seq<Action>, s: State, log: seq<Event>, op: Thread)
    requires Explains(m, actions, s, log) && Starts(op)
    ensures Explains(m, actions + [Spawn(op)], s.(threads := s.threads + [op]), log)
  {
    hide Sequential, AllAlone, Choices, Ops, Mine, Alone;
    var a, threads := Spawn(op), s.threads + [op];
    ActionsSnoc(actions, a);
    assert Doubled(threads) == Doubled(s.threads) by {
      forall i | 0 <= i < |s.threads| ensures threads[i] == s.threads[i] {}
    }
    forall tid: nat ensures Tells(actions + [a], threads, log, tid) {
      assert Tells(actions, s.threads, log, tid);
    }
  }

  /** The list after a step of thread `tid`. */
  ghost function Listed(s: State, log: seq<Event>, tid: nat): seq<Event>
    requires tid < |s.threads|
  {
    match Point(s.threads[tid], s.manifests)
    case None => log
    case Some((work, answer)) => log + [Event(tid, work, answer)]
  }

  lemma StepExplained(m: ChunkLists, actions: seq<Action>, s: State, log: seq<Event>, tid: nat, c: Choice)
    requires Inv(s) && Explains(m, actions, s, log) && tid < |s.threads| && Advance(s, tid, c).Some?
    ensures Explains(m, actions + [Step(tid, c)], Advance(s, tid, c).value, Listed(s, log, tid))
  {
    hide Inv, Sequential, AllAlone, Choices, Ops, Mine, Alone, Visible, Story, Move, Perform, Got, Point;
    var a, t, got := Step(tid, c), s.threads[tid], Got(s, s.threads[tid]);
    var s', log' := Advance(s, tid, c).value, Listed(s, log, tid);
    ActionsSnoc(actions, a);
    TakesEffect(s, tid, c);
    assert Tells(actions, s.threads, log, tid);
    MoveStory(Ops(actions)[tid], Choices(actions, tid), t, s.manifests, got, c, Mine(log, tid));
    if Point(t, s.manifests).Some? {
      var e := log'[|log|];
      MineAbsent(log, tid);
      AloneSnoc(m, log, e);
    }
    forall i: nat ensures Tells(actions + [a], s'.threads, log', i) {
      assert Tells(actions, s.threads, log, i);
      if log' != log { MineSnoc(log, log'[|log|], i); }
    }
  }

  lemma NothingExplained(s: State)
    requires AtRest(s)
    ensures Explains(s.manifests, [], s, [])
  {
    assert Doubled([]) == {};
    assert s.manifests - {} == s.manifests;
  }

  lemma NothingLeft(s: State)
    ensures Leaves(s.leaked, [], s.leaked)
  {
    assert AllAbandoned([]) == [];
  }

  lemma NextLeaves(leaked: multiset<ChunkId>, actions: seq<Action>, s: State, a: Action, m: ChunkLists, log: seq<Event>)
    requires Leaves(leaked, actions, s.leaked) && Explains(m, actions, s, log) && Next(s, a).Some?
    ensures Leaves(leaked, actions + [a], Next(s, a).value.leaked)
  {
    hide Sum, Abandoned, Choices, Ops, Mine, Story, Move, Sequential, AllAlone, Got, Perform;
    ActionsSnoc(actions, a);
    var all := AllAbandoned(actions);
    match a
    case Spawn(op) =>
      assert Tells(actions, s.threads, log, |s.threads|);
      assert Abandoned(op, []) == multiset{} by { NothingChosen(op); }
      assert AllAbandoned(actions + [a]) == all + [multiset{}];
      SumSnoc(all, multiset{});
    case Step(tid, c) =>
      assert Tells(actions, s.threads, log, tid);
      var op, cs, t := Ops(actions)[tid], Choices(actions, tid), s.threads[tid];
      MoveLeaves(op, cs, t, s.manifests, Got(s, t), c, Mine(log, tid));
      assert AllAbandoned(actions + [a]) == all[tid := Abandoned(op, cs + [c])];
      SumUpdate(all, tid, Abandoned(op, cs + [c]));
      LeakedAfter(s, tid, Planned(s, tid, c).1);
  }

  lemma NothingChosen(op: Thread)
    ensures Abandoned(op, []) == multiset{}
  {
  }

  lemma LeakedAfter(s: State, tid: nat, e: Effect)
    requires Perform(s, tid, e).Some?
    ensures Perform(s, tid, e).value.leaked == s.leaked + (if e.Leak? then multiset(e.refs) else multiset{})
  {
    hide KeyLock, AddRef, IndexModel.DropRef;
  }

  lemma {:induction false} RunSnoc(s: State, actions: seq<Action>, a: Action)
    requires RunFrom(s, actions + [a]).Some?
    ensures RunFrom(s, actions).Some? && Next(RunFrom(s, actions).value, a) == RunFrom(s, actions + [a])
    decreases |actions|
  {
    hide Next;
    if actions == [] {
      assert ([] + [a])[1..] == [];
    } else {
      assert (actions + [a])[1..] == actions[1..] + [a];
      RunSnoc(Next(s, actions[0]).value, actions[1..], a);
    }
  }

  /** Up to each action of a run a list of operations explains it, and each list
      continues the one before by at most the operation whose thread stepped. */
  ghost predicate Linear(s: State, actions: seq<Action>, logs: seq<seq<Event>>) {
    && |logs| == |actions| + 1 && logs[0] == []
    && (forall i :: 0 <= i <= |actions| ==>
          RunFrom(s, actions[..i]).Some?
          && Explains(s.manifests, actions[..i], RunFrom(s, actions[..i]).value, logs[i])
          && Leaves(s.leaked, actions[..i], RunFrom(s, actions[..i]).value.leaked))
    && (forall i :: 0 <= i < |actions| ==> Continues(logs[i], logs[i + 1], actions[i]))
  }

  ghost predicate Continues(log: seq<Event>, log': seq<Event>, a: Action) {
    log <= log' && (log' == log || (a.Step? && |log'| == |log| + 1 && log'[|log|].tid == a.tid))
  }

  /** Every run from rest is linearizable: the operations take effect one at a
      time, in an order that agrees with the time they run, and answer what they
      answer in that order. */
  lemma {:induction false} Linearizable(s: State, actions: seq<Action>) returns (logs: seq<seq<Event>>)
    requires AtRest(s) && RunFrom(s, actions).Some?
    ensures Linear(s, actions, logs)
    decreases |actions|
  {
    hide AtRest, Explains, Next, RunFrom, Inv, Continues, Leaves;
    if actions == [] {
      NothingExplained(s);
      NothingLeft(s);
      logs := [[]];
      assert actions[..0] == [];
      RunNothing(s);
    } else {
      var n := |actions| - 1;
      var front, a := actions[..n], actions[n];
      assert actions == front + [a] && front[..n] == front;
      RunSnoc(s, front, a);
      var before := Linearizable(s, front);
      var log' := NextExplained(s, front, a, before[n]);
      NextLeaves(s.leaked, front, RunFrom(s, front).value, a, s.manifests, before[n]);
      logs := before + [log'];
      LinearSnoc(s, front, a, before, log');
    }
  }

  lemma RunNothing(s: State)
    ensures RunFrom(s, []) == Some(s)
  {
  }

  lemma NextExplained(s: State, actions: seq<Action>, a: Action, log: seq<Event>) returns (log': seq<Event>)
    requires AtRest(s) && RunFrom(s, actions).Some? && RunFrom(s, actions + [a]).Some?
    requires Next(RunFrom(s, actions).value, a) == RunFrom(s, actions + [a])
    requires Explains(s.manifests, actions, RunFrom(s, actions).value, log)
    ensures Explains(s.manifests, actions + [a], RunFrom(s, actions + [a]).value, log') && Continues(log, log', a)
  {
    hide AtRest, Explains, RunFrom, Inv, Advance, Point;
    RestIsInv(s);
    RunKeepsInv(s, actions);
    var now := RunFrom(s, actions).value;
    match a
    case Spawn(op) =>
      SpawnExplained(s.manifests, actions, now, log, op);
      log' := log;
    case Step(tid, c) =>
      StepExplained(s.manifests, actions, now, log, tid, c);
      log' := Listed(now, log, tid);
  }

  lemma LinearSnoc(s: State, actions: seq<Action>, a: Action, logs: seq<seq<Event>>, log': seq<Event>)
    requires Linear(s, actions, logs) && RunFrom(s, actions + [a]).Some?
    requires Explains(s.manifests, actions + [a], RunFrom(s, actions + [a]).value, log')
    requires Continues(logs[|actions|], log', a)
    requires Leaves(s.leaked, actions + [a], RunFrom(s, actions + [a]).value.leaked)
    ensures Linear(s, actions + [a], logs + [log'])
  {
    hide Explains, RunFrom, Continues, Leaves;
    var longer, all := actions + [a], logs + [log'];
    forall i | 0 <= i <= |longer|
      ensures RunFrom(s, longer[..i]).Some? && Explains(s.manifests, longer[..i], RunFrom(s, longer[..i]).value, all[i])
              && Leaves(s.leaked, longer[..i], RunFrom(s, longer[..i]).value.leaked)
    {
      if i <= |actions| { assert longer[..i] == actions[..i]; } else { assert longer[..i] == longer; }
    }
  }

  // ---- what that means for the caller of one operation ----

  /** When all operations have their answers, the manifests are what the listed
      ones leave, one after the other. Listed are all of them but the uploads
      that were aborted or dropped, each with the answer its caller got; a
      finished upload stored exactly the chunks it had flushed. */
  lemma Outcomes(s: State, actions: seq<Action>) returns (log: seq<Event>)
    requires AtRest(s) && RunFrom(s, actions).Some?
    requires forall i :: 0 <= i < |RunFrom(s, actions).value.threads| ==> RunFrom(s, actions).value.threads[i].Done?
    ensures var s' := RunFrom(s, actions).value;
      && |s'.threads| == |Ops(actions)|
      && s'.manifests == AllAlone(s.manifests, log) && Sequential(s.manifests, log)
      && (forall p, q :: 0 <= p < q < |log| ==> log[p].tid != log[q].tid)
      && Leaves(s.leaked, actions, s'.leaked)
      && forall tid :: 0 <= tid < |s'.threads| ==>
           EndsWell(Ops(actions)[tid], Choices(actions, tid), s'.threads[tid].answer, Mine(log, tid))
  {
    hide AtRest, Explains, RunFrom, Inv, Story, Leaves;
    var logs := Linearizable(s, actions);
    var n := |actions|;
    assert actions[..n] == actions;
    log := logs[n];
    var s' := RunFrom(s, actions).value;
    NoneDoubled(s.manifests, actions, s', log);
    forall tid | 0 <= tid < |s'.threads|
      ensures EndsWell(Ops(actions)[tid], Choices(actions, tid), s'.threads[tid].answer, Mine(log, tid))
    {
      StoryOf(s.manifests, actions, s', log, tid);
      StoryEnds(Ops(actions)[tid], Choices(actions, tid), s'.threads[tid], Mine(log, tid));
    }
  }

  ghost predicate EndsWell(op: Thread, cs: seq<Choice>, answer: Answer, mine: Outcome) {
    match op
    case UploadStart(key) =>
      cs != [] &&
      if Verdict(cs[1..]) == Some(Finish)
      then answer == Committed(Flushed(cs[1..])) && mine == Some((Store(key, Flushed(cs[1..])), answer))
      else answer == GivenUp && mine == None && Verdict(cs[1..]) in {Some(Abort), Some(Drop)}
    case DeleteStart(key) => mine == Some((Delete(key), answer))
    case RenameStart(from, to) => mine == Some((Rename(from, to), answer))
    case _ => false
  }

  lemma StoryEnds(op: Thread, cs: seq<Choice>, t: Thread, mine: Outcome)
    requires Story(op, cs, t, mine) && t.Done?
    ensures EndsWell(op, cs, t.answer, mine)
  {
    hide Flushed, Verdict;
    if op.UploadStart? && cs != [] { VerdictKind(cs[1..]); }
  }

  lemma {:induction false} VerdictKind(cs: seq<Choice>)
    ensures Verdict(cs) in {None, Some(Finish), Some(Abort), Some(Drop)}
  {
    if cs != [] { VerdictKind(cs[1..]); }
  }

  lemma NoneDoubled(m: ChunkLists, actions: seq<Action>, s: State, log: seq<Event>)
    requires Explains(m, actions, s, log) && forall i :: 0 <= i < |s.threads| ==> s.threads[i].Done?
    ensures |s.threads| == |Ops(actions)| && s.manifests == AllAlone(m, log) && Sequential(m, log)
    ensures forall p, q :: 0 <= p < q < |log| ==> log[p].tid != log[q].tid
  {
    hide Sequential, AllAlone, Ops;
    assert Doubled(s.threads) == {};
    assert s.manifests - {} == s.manifests;
  }

  lemma StoryOf(m: ChunkLists, actions: seq<Action>, s: State, log: seq<Event>, tid: nat)
    requires Explains(m, actions, s, log) && tid < |s.threads|
    ensures |Ops(actions)| == |s.threads|
    ensures Story(Ops(actions)[tid], Choices(actions, tid), s.threads[tid], Mine(log, tid))
  {
    hide Sequential, AllAlone, Ops, Story;
    assert Tells(actions, s.threads, log, tid);
  }

  lemma {:induction false} LogsGrow(s: State, actions: seq<Action>, logs: seq<seq<Event>>, i: nat, j: nat)
    requires Linear(s, actions, logs) && i <= j <= |actions|
    ensures logs[i] <= logs[j]
    decreases j
  {
    hide Explains, RunFrom, Leaves;
    if i < j {
      LogsGrow(s, actions, logs, i, j - 1);
      assert Continues(logs[j - 1], logs[j], actions[j - 1]);
    }
  }

  /** A thread that is done takes no further step and adds nothing to the list. */
  lemma {:induction false} NoMore(s: State, actions: seq<Action>, logs: seq<seq<Event>>, i: nat, j: nat, tid: nat)
    requires Linear(s, actions, logs) && i <= j <= |actions|
    requires var threads := RunFrom(s, actions[..i]).value.threads; tid < |threads| && threads[tid].Done?
    ensures var threads := RunFrom(s, actions[..j]).value.threads; tid < |threads| && threads[tid].Done?
    ensures forall r :: |logs[i]| <= r < |logs[j]| ==> logs[j][r].tid != tid
    decreases j
  {
    hide Explains, RunFrom, Next, Leaves;
    if i < j {
      NoMore(s, actions, logs, i, j - 1, tid);
      var a := actions[j - 1];
      assert actions[..j] == actions[..j - 1] + [a];
      RunSnoc(s, actions[..j - 1], a);
      DoneStays(RunFrom(s, actions[..j - 1]).value, a, tid);
      assert Continues(logs[j - 1], logs[j], a);
    }
  }

  lemma DoneStays(s: State, a: Action, tid: nat)
    requires Next(s, a).Some? && tid < |s.threads| && s.threads[tid].Done?
    ensures var threads := Next(s, a).value.threads; tid < |threads| && threads[tid].Done?
    ensures a.Step? ==> a.tid != tid
  {
    hide Move, Perform, Got;
  }

  /** An operation that is done before another one arrives comes before it. */
  lemma RealTime(s: State, actions: seq<Action>, logs: seq<seq<Event>>, i: nat, p: nat, q: nat)
    requires Linear(s, actions, logs) && i <= |actions|
    requires var log := logs[|actions|];
      && p < |log| && q < |log|
      && var threads := RunFrom(s, actions[..i]).value.threads;
         log[p].tid < |threads| && threads[log[p].tid].Done? && |threads| <= log[q].tid
    ensures p < q
  {
    hide Explains, RunFrom, Leaves;
    var n, log, now := |actions|, logs[|actions|], RunFrom(s, actions[..i]).value;
    LogsGrow(s, actions, logs, i, n);
    NoMore(s, actions, logs, i, n, log[p].tid);
    assert p < |logs[i]|;
    NotYet(s.manifests, actions[..i], now, logs[i], log[q].tid);
  }

  lemma NotYet(m: ChunkLists, actions: seq<Action>, s: State, log: seq<Event>, tid: nat)
    requires Explains(m, actions, s, log) && |s.threads| <= tid
    ensures forall p :: 0 <= p < |log| ==> log[p].tid != tid
  {
    hide Sequential, AllAlone, Ops, Story, Choices, Mine;
    assert Tells(actions, s.threads, log, tid);
    MineAbsent(log, tid);
  }

  /** When an operation gives a key back to others, the key is as its caller
      expects: gone after a delete, with the flushed chunks after an upload, and
      moved after a rename that went through. */
  lemma Unlocks(s: State, actions: seq<Action>, tid: nat, c: Choice, key: Key)
    requires AtRest(s) && RunFrom(s, actions + [Step(tid, c)]).Some?
    requires RunFrom(s, actions).Some? && tid < |RunFrom(s, actions).value.threads| == |Ops(actions)|
    requires OwnsKey(RunFrom(s, actions).value.threads[tid], key)
    requires var after := RunFrom(s, actions + [Step(tid, c)]).value;
             tid < |after.threads| && !OwnsKey(after.threads[tid], key)
    ensures var after := RunFrom(s, actions + [Step(tid, c)]).value;
      match Ops(actions)[tid]
      case UploadStart(k) =>
        && key == k && Choices(actions, tid) != []
        && k in after.manifests && after.manifests[k] == Flushed(Choices(actions, tid)[1..])
      case DeleteStart(k) => key == k && k !in after.manifests
      case RenameStart(from, to) =>
        && key in {from, to} && (after.threads[tid].LeavingFirst? || after.threads[tid].Done?)
        && (after.threads[tid].answer.Moved? ==>
              && (key == from ==> from !in after.manifests)
              && (key == to ==> to in after.manifests && after.manifests[to] == after.threads[tid].answer.chunks))
      case _ => false
  {
    hide AtRest, Explains, RunFrom, Inv, Leaves, Story, Advance, OwnsKey, Flushed, Choices, Ops;
    var logs := Linearizable(s, actions);
    var n := |actions|;
    assert actions[..n] == actions;
    var now := RunFrom(s, actions).value;
    RunSnoc(s, actions, Step(tid, c));
    RestIsInv(s);
    RunKeepsInv(s, actions);
    StoryOf(s.manifests, actions, now, logs[n], tid);
    UnlockStep(now, tid, c, key, Ops(actions)[tid], Choices(actions, tid), Mine(logs[n], tid));
  }

  lemma UnlockStep(s: State, tid: nat, c: Choice, key: Key, op: Thread, cs: seq<Choice>, mine: Outcome)
    requires Inv(s) && tid < |s.threads| && Advance(s, tid, c).Some? && Story(op, cs, s.threads[tid], mine)
    requires OwnsKey(s.threads[tid], key) && !OwnsKey(Advance(s, tid, c).value.threads[tid], key)
    ensures var after := Advance(s, tid, c).value;
      match op
      case UploadStart(k) =>
        key == k && cs != [] && k in after.manifests && after.manifests[k] == Flushed(cs[1..])
      case DeleteStart(k) => key == k && k !in after.manifests
      case RenameStart(from, to) =>
        && key in {from, to} && (after.threads[tid].LeavingFirst? || after.threads[tid].Done?)
        && (after.threads[tid].answer.Moved? ==>
              && (key == from ==> from !in after.manifests)
              && (key == to ==> to in after.manifests && after.manifests[to] == after.threads[tid].answer.chunks))
      case _ => false
  {
    hide TableInv, HolderInv, FactsInv, BooksInv, Got, Owned, Flushed, Verdict;
    var t, m := s.threads[tid], s.manifests;
    FactsOf(s, tid);
    MoveOwned(t, m, Got(s, t), c);
    var (t', e) := Planned(s, tid, c);
    KeptUnlessReleased(t, t', e, key);
    ReleasedBy(t, m, Got(s, t), c);
  }

  lemma KeptUnlessReleased(t: Thread, t': Thread, e: Effect, key: Key)
    requires OwnsKey(t, key) && !OwnsKey(t', key)
    requires match e
             case Acquire(h) => Owned(t') == Owned(t) + {h}
             case Release(h) => h in Owned(t) && Owned(t') == Owned(t) - {h}
             case _ => Owned(t') == Owned(t)
    ensures e.Release? && e.mutex.0 == key
  {
    hide Owned;
    var h :| h in Owned(t) && h.0 == key;
    assert h !in Owned(t');
  }

  lemma ReleasedBy(t: Thread, m: ChunkLists, got: LockId, c: Choice)
    requires Move(t, m, got, c).1.Release?
    ensures var (t', e) := Move(t, m, got, c);
      || (t.Releasing? && e.mutex.0 == t.key && t' == Done(Committed(t.refs)))
      || (t.Leaving? && e.mutex.0 == t.key && t' == Done(t.answer))
      || (t.LeavingBoth? && e.mutex.0 == Second(t.from, t.to) && t' == LeavingFirst(t.from, t.to, t.lock1, t.answer))
      || (t.LeavingFirst? && e.mutex.0 == First(t.from, t.to) && t' == Done(t.answer))
  {
    hide First, Second;
  }
}
