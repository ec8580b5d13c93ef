/** Bytes, their lexicographic order (the order of Rust's `String` and of a
    `BTreeMap` keyed by it) and the sorted enumeration of a finite key set. */
module Bytes {
  type byte = b: int | 0 <= b < 256
  type Bytes = seq<byte>

  /** Concatenation of a list of byte strings. */
  function Concat(parts: seq<Bytes>): Bytes {
    if parts == [] then [] else parts[0] + Concat(parts[1..])
  }

  lemma {:induction false} ConcatAppend(a: seq<Bytes>, b: seq<Bytes>)
    ensures Concat(a + b) == Concat(a) + Concat(b)
  {
    if a == [] {
      assert a + b == b;
    } else {
      var rest := a[1..];
      ConcatAppend(rest, b);
      assert a + b == [a[0]] + (rest + b);
      assert a[0] + (Concat(rest) + Concat(b)) == (a[0] + Concat(rest)) + Concat(b);
    }
  }

  lemma ConcatSnoc(a: seq<Bytes>, x: Bytes)
    ensures Concat([]) == []
    ensures Concat(a + [x]) == Concat(a) + x
  {
    ConcatAppend(a, [x]);
    assert Concat([x]) == x + Concat([]) == x;
  }

  predicate HasPrefix(s: Bytes, prefix: Bytes) {
    prefix <= s
  }

  predicate HasSuffix(s: Bytes, suffix: Bytes) {
    |suffix| <= |s| && s[|s| - |suffix|..] == suffix
  }

  /** Strict lexicographic order. */
  predicate Less(a: Bytes, b: Bytes) {
    if |b| == 0 then false
    else if |a| == 0 then true
    else if a[0] != b[0] then a[0] < b[0]
    else Less(a[1..], b[1..])
  }

  predicate Leq(a: Bytes, b: Bytes) {
    a == b || Less(a, b)
  }

  /** `b` has the first byte that differs, and it is greater; or `a` ends first. */
  ghost predicate DiffersAt(a: Bytes, b: Bytes, i: nat) {
    && i <= |a| && i < |b| && a[..i] == b[..i]
    && (i == |a| || a[i] < b[i])
  }

  /** The recursive comparison is the order by the first differing byte. */
  lemma {:induction false} LessMeans(a: Bytes, b: Bytes)
    ensures Less(a, b) <==> exists i: nat :: DiffersAt(a, b, i)
  {
    if b == [] {
    } else if a == [] {
      assert DiffersAt(a, b, 0);
    } else if a[0] != b[0] {
      assert a[0] < b[0] ==> DiffersAt(a, b, 0);
      assert forall i: nat :: 0 < i <= |a| && i < |b| ==> a[..i][0] != b[..i][0];
    } else {
      LessMeans(a[1..], b[1..]);
      forall i: nat ensures DiffersAt(a, b, i + 1) <==> DiffersAt(a[1..], b[1..], i) {
        if i < |a| && i + 1 < |b| {
          assert a[..i + 1] == [a[0]] + a[1..][..i] && b[..i + 1] == [b[0]] + b[1..][..i];
          assert a[..i + 1][1..] == a[1..][..i] && b[..i + 1][1..] == b[1..][..i];
        }
      }
      if i: nat :| DiffersAt(a, b, i) { assert DiffersAt(a[1..], b[1..], i - 1); }
      if i: nat :| DiffersAt(a[1..], b[1..], i) { assert DiffersAt(a, b, i + 1); }
    }
  }

  lemma PrefixMeans(s: Bytes, prefix: Bytes)
    ensures HasPrefix(s, prefix) <==> |prefix| <= |s| && forall i :: 0 <= i < |prefix| ==> s[i] == prefix[i]
  {
    if |prefix| <= |s| && forall i :: 0 <= i < |prefix| ==> s[i] == prefix[i] { assert s[..|prefix|] == prefix; }
  }

  lemma LessIrreflexive(a: Bytes)
    ensures !Less(a, a)
  {
  }

  lemma {:induction false} LessTransitive(a: Bytes, b: Bytes, c: Bytes)
    requires Less(a, b) && Less(b, c)
    ensures Less(a, c)
  {
    if |a| > 0 && a[0] == b[0] && b[0] == c[0] {
      LessTransitive(a[1..], b[1..], c[1..]);
    }
  }

  lemma {:induction false} LessTotal(a: Bytes, b: Bytes)
    ensures a == b || Less(a, b) || Less(b, a)
  {
    if |a| > 0 && |b| > 0 && a[0] == b[0] {
      LessTotal(a[1..], b[1..]);
      assert a == [a[0]] + a[1..] && b == [b[0]] + b[1..];
    }
  }

  lemma LessAsymmetric(a: Bytes, b: Bytes)
    ensures !(Less(a, b) && Less(b, a))
  {
    if Less(a, b) && Less(b, a) {
      LessTransitive(a, b, a);
      LessIrreflexive(a);
    }
  }

  /** A string starting with `prefix` does not sort before it. */
  lemma {:induction false} PrefixFirst(prefix: Bytes, k: Bytes)
    requires HasPrefix(k, prefix)
    ensures Leq(prefix, k)
  {
    if |prefix| == 0 {
    } else {
      PrefixFirst(prefix[1..], k[1..]);
      assert prefix == [prefix[0]] + prefix[1..] && k == [k[0]] + k[1..];
    }
  }

  /** Prefixed keys are contiguous: once the scan, started at or after the
      prefix, meets a key without it, no later key has it. */
  lemma {:induction false} PrefixContiguous(prefix: Bytes, a: Bytes, b: Bytes)
    requires Leq(prefix, a) && Leq(a, b)
    requires HasPrefix(b, prefix)
    ensures HasPrefix(a, prefix)
  {
    if |prefix| > 0 && prefix != a {
      assert |a| > 0 && |b| > 0;
      assert prefix[0] == b[0];
      assert a[0] == prefix[0];
      assert a != b ==> Less(a[1..], b[1..]);
      PrefixContiguous(prefix[1..], a[1..], b[1..]);
      assert prefix == [prefix[0]] + prefix[1..] && a == [a[0]] + a[1..];
    }
  }

  // ---- sorted enumeration of a key set ----

  ghost predicate IsLeast(k: Bytes, s: set<Bytes>) {
    k in s && forall x :: x in s ==> Leq(k, x)
  }

  lemma {:induction false} LeastExists(s: set<Bytes>)
    requires s != {}
    ensures exists k :: IsLeast(k, s)
  {
    var x :| x in s;
    if s == {x} {
      assert IsLeast(x, s);
    } else {
      var rest := s - {x};
      LeastExists(rest);
      var k :| IsLeast(k, rest);
      LessTotal(x, k);
      if Less(x, k) {
        forall y | y in s ensures Leq(x, y) {
          if y != x {
            assert y in rest;
            if y != k { LessTransitive(x, k, y); }
          }
        }
        assert IsLeast(x, s);
      } else {
        assert IsLeast(k, s) by {
          forall y | y in s ensures Leq(k, y) { if y != x { assert y in rest; } }
        }
      }
    }
  }

  predicate StrictlySorted(ks: seq<Bytes>) {
    forall i, j :: 0 <= i < j < |ks| ==> Less(ks[i], ks[j])
  }

  ghost function Elements(ks: seq<Bytes>): set<Bytes> {
    set k | k in ks
  }

  function Least(s: set<Bytes>): (k: Bytes)
    requires s != {}
    ensures IsLeast(k, s)
  {
    LeastExists(s);
    assert forall a, b :: a in s && b in s && Leq(a, b) && Leq(b, a) ==> a == b by {
      forall a, b | Leq(a, b) && Leq(b, a) ensures a == b { LessAsymmetric(a, b); }
    }
    assert exists k :: k in s && forall x :: x in s ==> Leq(k, x) by {
      var k :| IsLeast(k, s);
    }
    var k :| k in s && forall x :: x in s ==> Leq(k, x);
    k
  }

  /** The keys of a `BTreeMap` in iteration order. */
  function SortedKeys(s: set<Bytes>): (ks: seq<Bytes>)
    ensures StrictlySorted(ks)
    ensures Elements(ks) == s
    ensures |ks| == |s|
    decreases |s|
  {
    if s == {} then []
    else
      var k := Least(s);
      var rest := SortedKeys(s - {k});
      SortedCons(k, rest, s);
      [k] + rest
  }

  lemma SortedCons(k: Bytes, rest: seq<Bytes>, s: set<Bytes>)
    requires IsLeast(k, s) && StrictlySorted(rest) && Elements(rest) == s - {k}
    ensures StrictlySorted([k] + rest)
    ensures Elements([k] + rest) == s
  {
    forall j | 0 <= j < |rest| ensures Less(k, rest[j]) {
      assert rest[j] in Elements(rest);
    }
    assert Elements([k] + rest) == {k} + Elements(rest) by {
      assert ([k] + rest)[1..] == rest && ([k] + rest)[0] == k;
      forall x | x in rest ensures x in [k] + rest {
        var i :| 0 <= i < |rest| && rest[i] == x;
        assert ([k] + rest)[i + 1] == x;
      }
    }
  }

  /** A strictly sorted list is determined by its set of elements. */
  lemma {:induction false} SortedUnique(a: seq<Bytes>, b: seq<Bytes>)
    requires StrictlySorted(a) && StrictlySorted(b)
    requires Elements(a) == Elements(b)
    ensures a == b
  {
    assert b != [] ==> b[0] in Elements(b);
    if a == [] {
    } else {
      assert a[0] in Elements(a) && a[0] in Elements(b);
      assert b != [] && b[0] in Elements(b) && b[0] in Elements(a);
      var i :| 0 <= i < |b| && b[i] == a[0];
      var j :| 0 <= j < |a| && a[j] == b[0];
      LessAsymmetric(a[0], b[0]);
      assert a[0] == b[0];
      forall x ensures x in Elements(a[1..]) <==> x in Elements(b[1..]) {
        LessIrreflexive(a[0]);
        TailElements(a, x);
        TailElements(b, x);
      }
      SortedUnique(a[1..], b[1..]);
      assert a == [a[0]] + a[1..] && b == [b[0]] + b[1..];
    }
  }

  lemma TailElements(a: seq<Bytes>, x: Bytes)
    requires a != [] && StrictlySorted(a)
    ensures x in Elements(a[1..]) <==> x in Elements(a) && x != a[0]
  {
    LessIrreflexive(a[0]);
    if x in a && x != a[0] {
      var i :| 0 <= i < |a| && a[i] == x;
      assert a[1..][i - 1] == x;
    }
    if x in a[1..] {
      var i :| 0 <= i < |a| - 1 && a[1..][i] == x;
      assert a[i + 1] == x && Less(a[0], a[i + 1]);
    }
  }
}
