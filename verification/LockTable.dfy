/** The table of key mutexes (`key_lock` in engine.rs) does not leak one mutex
    for every key ever touched: pruning keeps it within what is in use. */
module LockTable {
  import opened Types
  import opened Protocol

  /** How many handles on mutexes the threads hold together. */
  ghost function InUse(threads: seq<Thread>): nat {
    if threads == [] then 0 else InUse(threads[..|threads| - 1]) + |Handles(threads[|threads| - 1])|
  }

  ghost function KeysOf(handles: set<(Key, LockId)>): set<Key> {
    set h | h in handles :: h.0
  }

  /** The keys of those handles. */
  ghost function KeysInUse(threads: seq<Thread>): set<Key> {
    if threads == [] then {} else KeysInUse(threads[..|threads| - 1]) + KeysOf(Handles(threads[|threads| - 1]))
  }

  lemma {:induction false} FewKeys(handles: set<(Key, LockId)>)
    ensures |KeysOf(handles)| <= |handles|
    decreases |handles|
  {
    if handles != {} {
      var h :| h in handles;
      FewKeys(handles - {h});
      assert KeysOf(handles) == KeysOf(handles - {h}) + {h.0};
    }
  }

  lemma {:induction false} FewInUse(threads: seq<Thread>)
    ensures |KeysInUse(threads)| <= InUse(threads)
  {
    hide Handles, KeysOf;
    if threads != [] {
      FewInUse(threads[..|threads| - 1]);
      FewKeys(Handles(threads[|threads| - 1]));
    }
  }

  lemma {:induction false} InUseHas(threads: seq<Thread>, i: nat, h: (Key, LockId))
    requires i < |threads| && h in Handles(threads[i])
    ensures h.0 in KeysInUse(threads)
  {
    hide Handles;
    var n := |threads| - 1;
    if i < n { InUseHas(threads[..n], i, h); }
  }

  /** After pruning a grown table, every mutex in it is in use. */
  lemma PrunedInUse(s: State)
    requires TableInv(s) && |s.locks| > 1024
    ensures |Pruned(s)| <= InUse(s.threads)
  {
    hide Handles, InUse, KeysInUse;
    forall k | k in Pruned(s) ensures k in KeysInUse(s.threads) {
      var l := s.locks[k];
      assert Live(s.threads, l);
      var i :| 0 <= i < |s.threads| && HasHandle(s.threads[i], l);
      var h :| h in Handles(s.threads[i]) && h.1 == l;
      InUseHas(s.threads, i, h);
      assert s.locks[h.0] == h.1;
    }
    FewInUse(s.threads);
    Fewer(Pruned(s).Keys, KeysInUse(s.threads));
    assert |Pruned(s)| == |Pruned(s).Keys|;
  }

  lemma {:induction false} Fewer(a: set<Key>, b: set<Key>)
    requires a <= b
    ensures |a| <= |b|
  {
    assert b == a + (b - a);
  }

  /** A step lets the table grow past 1025 only as far as one more than in use. */
  lemma StepBounded(s: State, a: Action, n: nat)
    requires Inv(s) && Next(s, a).Some? && InUse(s.threads) <= n
    requires |s.locks| <= 1025 || |s.locks| <= n + 1
    ensures var locks := Next(s, a).value.locks; |locks| <= 1025 || |locks| <= n + 1
  {
    hide TableInv, HolderInv, FactsInv, BooksInv, InUse, Pruned, Move, Got, Perform, KeyLock;
    if a.Step? {
      var e := Planned(s, a.tid, a.choice).1;
      LocksAfter(s, a.tid, e);
      if e.Obtain? {
        if |s.locks| > 1024 { PrunedInUse(s); } else { NotPruned(s); }
        OneMutexMore(s, e.key);
      }
    }
  }

  lemma LocksAfter(s: State, tid: nat, e: Effect)
    requires Perform(s, tid, e).Some?
    ensures Perform(s, tid, e).value.locks == if e.Obtain? then KeyLock(s, e.key).0.locks else s.locks
  {
    hide KeyLock;
  }

  lemma NotPruned(s: State)
    requires |s.locks| <= 1024
    ensures Pruned(s) == s.locks
  {
  }

  lemma OneMutexMore(s: State, key: Key)
    ensures |KeyLock(s, key).0.locks| <= |Pruned(s)| + 1
  {
    hide Pruned;
  }

  /** In every run from rest with at most `n` handles in use at any time, the
      table never has more than 1025 entries, or more than `n + 1`. */
  lemma {:induction false} TableBounded(s: State, actions: seq<Action>, n: nat)
    requires Inv(s) && RunFrom(s, actions).Some? && (|s.locks| <= 1025 || |s.locks| <= n + 1)
    requires forall i :: 0 <= i <= |actions| ==>
               RunFrom(s, actions[..i]).Some? && InUse(RunFrom(s, actions[..i]).value.threads) <= n
    ensures var locks := RunFrom(s, actions).value.locks; |locks| <= 1025 || |locks| <= n + 1
    decreases |actions|
  {
    hide Inv, Next, InUse;
    if actions != [] {
      assert actions[..0] == [];
      assert InUse(RunFrom(s, actions[..0]).value.threads) <= n;
      var s' := Next(s, actions[0]).value;
      NextKeepsInv(s, actions[0]);
      StepBounded(s, actions[0], n);
      forall i | 0 <= i <= |actions[1..]|
        ensures RunFrom(s', actions[1..][..i]).Some? && InUse(RunFrom(s', actions[1..][..i]).value.threads) <= n
      {
        assert actions[..i + 1][1..] == actions[1..][..i];
        assert RunFrom(s, actions[..i + 1]).Some? && InUse(RunFrom(s, actions[..i + 1]).value.threads) <= n;
      }
      TableBounded(s', actions[1..], n);
    }
  }
}
