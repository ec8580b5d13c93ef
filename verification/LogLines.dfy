/** Replay of a log file whatever it holds, line by line: the files the engine
    writes itself are those of `LogText`. */
module LogLines {
  import opened Bytes
  import opened Types
  import opened LogText

  /** Lines, each ended by a newline. */
  ghost function Text(raws: seq<Bytes>): Bytes {
    if raws == [] then [] else raws[0] + [10] + Text(raws[1..])
  }

  /** A line without the carriage return it may end in. */
  ghost function Body(raw: Bytes): Bytes {
    if raw != [] && raw[|raw| - 1] == 13 then raw[..|raw| - 1] else raw
  }

  /** A line that is blank or holds an entry. */
  ghost predicate Fine<E>(c: Codec<E>, raw: Bytes) {
    10 !in raw && c.utf8(raw) && (Body(raw) == [] || c.dec(Body(raw)).Some?)
  }

  ghost predicate AllFine<E>(c: Codec<E>, raws: seq<Bytes>) {
    forall i :: 0 <= i < |raws| ==> Fine(c, raws[i])
  }

  /** The entry on a line, unless it is blank. */
  ghost function First<E>(c: Codec<E>, raw: Bytes): seq<E>
    requires Fine(c, raw)
  {
    if Body(raw) == [] then [] else [c.dec(Body(raw)).value]
  }

  /** The entries on lines that are not blank. */
  ghost function Entries<E>(c: Codec<E>, raws: seq<Bytes>): seq<E>
    requires AllFine(c, raws)
  {
    if raws == [] then []
    else
      assert Fine(c, raws[0]);
      First(c, raws[0]) + Entries(c, raws[1..])
  }

  /** What replay takes for the length of the lines. */
  ghost function Counted(raws: seq<Bytes>): nat {
    if raws == [] then 0 else |Body(raws[0])| + 1 + Counted(raws[1..])
  }

  lemma LineShape(raw: Bytes, more: Bytes)
    requires 10 !in raw
    ensures var file := raw + [10] + more;
            RawLine(file) == raw && FirstLine(file) == Body(raw) && AfterLine(file) == more
  {
    var file := raw + [10] + more;
    assert file == raw + ([10] + more);
    LineLengthOf(raw, [10] + more);
  }

  lemma ReadLine<E(!new)>(c: Codec<E>, raw: Bytes, more: Bytes)
    requires Fine(c, raw)
    ensures Parse(c, raw + [10] + more) == Prepend(First(c, raw), |Body(raw)| + 1, Parse(c, more))
  {
    hide RawLine, FirstLine, AfterLine, LineLength, Body;
    LineShape(raw, more);
  }

  lemma {:induction false} ReadLines<E(!new)>(c: Codec<E>, raws: seq<Bytes>, rest: Bytes)
    requires AllFine(c, raws)
    ensures Parse(c, Text(raws) + rest) == Prepend(Entries(c, raws), Counted(raws), Parse(c, rest))
  {
    hide Parse, Prepend, Fine, First, Body;
    if raws == [] {
      assert Text(raws) + rest == rest;
      PrependNothing(Parse(c, rest));
    } else {
      var raw, more := raws[0], raws[1..];
      assert Fine(c, raw);
      ReadLines(c, more, rest);
      assert Text(raws) + rest == raw + [10] + (Text(more) + rest);
      ReadLine(c, raw, Text(more) + rest);
      PrependTwice(First(c, raw), |Body(raw)| + 1, Entries(c, more), Counted(more), Parse(c, rest));
    }
  }

  /** Fine lines only: all their entries, and the file is left alone. */
  lemma ReadsAll<E(!new)>(c: Codec<E>, raws: seq<Bytes>)
    requires AllFine(c, raws)
    ensures Parse(c, Text(raws)) == Ok(Scan(Entries(c, raws), Counted(raws), false))
  {
    ReadLines(c, raws, []);
    assert Text(raws) + [] == Text(raws) && Entries(c, raws) + [] == Entries(c, raws);
  }

  /** A last line that lacks only its newline counts like the others. */
  lemma ReadsUnterminated<E(!new)>(c: Codec<E>, raws: seq<Bytes>, last: Bytes)
    requires AllFine(c, raws) && last != [] && 10 !in last && c.utf8(last) && c.dec(last).Some?
    ensures Parse(c, Text(raws) + last) ==
            Ok(Scan(Entries(c, raws) + [c.dec(last).value], Counted(raws) + |last| + 1, false))
  {
    hide Parse, Entries, Counted, Text, Fine;
    ReadLines(c, raws, last);
    ParseTail(c, last);
  }

  /** The first line that is neither blank nor an entry ends the replay, whatever
      follows it; and the file is to be cut where its lines are counted to end. */
  lemma StopsAtBadLine<E(!new)>(c: Codec<E>, raws: seq<Bytes>, bad: Bytes, more: Option<Bytes>)
    requires AllFine(c, raws) && 10 !in bad && c.utf8(bad)
    requires var body := if more.Some? then Body(bad) else bad; body != [] && c.dec(body) == None
    ensures var file := Text(raws) + (if more.Some? then bad + [10] + more.value else bad);
            Parse(c, file) == Ok(Scan(Entries(c, raws), Counted(raws), true))
  {
    hide Entries, Counted, Text;
    var rest := if more.Some? then bad + [10] + more.value else bad;
    ReadLines(c, raws, rest);
    if more.Some? { LineShape(bad, more.value); } else { ParseTail(c, bad); }
    assert Entries(c, raws) + [] == Entries(c, raws);
  }

  /** A line that is no text makes opening fail. */
  lemma FailsOnBadText<E(!new)>(c: Codec<E>, raws: seq<Bytes>, bad: Bytes, more: Option<Bytes>)
    requires AllFine(c, raws) && 10 !in bad && !c.utf8(bad) && (bad != [] || more.Some?)
    ensures Parse(c, Text(raws) + (if more.Some? then bad + [10] + more.value else bad)) == Err(Io)
  {
    hide Entries, Counted, Text;
    var rest := if more.Some? then bad + [10] + more.value else bad;
    ReadLines(c, raws, rest);
    if more.Some? { LineShape(bad, more.value); } else { ParseTail(c, bad); }
  }

  /** A carriage return before the newline is not counted. */
  ghost function Returns(raws: seq<Bytes>): nat {
    if raws == [] then 0 else (if Body(raws[0]) != raws[0] then 1 else 0) + Returns(raws[1..])
  }

  lemma {:induction false} CountedLess(raws: seq<Bytes>)
    ensures Counted(raws) + Returns(raws) == |Text(raws)|
  {
    if raws != [] { CountedLess(raws[1..]); }
  }

  lemma {:induction false} NoReturns(raws: seq<Bytes>)
    ensures Returns(raws) == 0 <==> forall i :: 0 <= i < |raws| ==> Body(raws[i]) == raws[i]
  {
    hide Body;
    if raws != [] {
      NoReturns(raws[1..]);
      assert forall i :: 0 < i < |raws| ==> raws[i] == raws[1..][i - 1];
    }
  }

  /** The cut leaves exactly the good lines if and only if none of them ends in a
      carriage return; otherwise it takes a byte of them for each that does. */
  lemma CutKeepsLines<E(!new)>(c: Codec<E>, raws: seq<Bytes>, bad: Bytes, more: Option<Bytes>)
    requires AllFine(c, raws) && 10 !in bad && c.utf8(bad)
    requires var body := if more.Some? then Body(bad) else bad; body != [] && c.dec(body) == None
    ensures var file := Text(raws) + (if more.Some? then bad + [10] + more.value else bad);
      Parse(c, file).Ok? &&
      var left := Recovered(file, Parse(c, file).value);
      && |left| + Returns(raws) == |Text(raws)| && left <= Text(raws)
      && (left == Text(raws) <==> forall i :: 0 <= i < |raws| ==> Body(raws[i]) == raws[i])
  {
    hide Parse, Text, Counted, Returns, Body, Fine, Entries;
    StopsAtBadLine(c, raws, bad, more);
    CountedLess(raws);
    NoReturns(raws);
    var file := Text(raws) + (if more.Some? then bad + [10] + more.value else bad);
    assert file[..Counted(raws)] == Text(raws)[..Counted(raws)];
  }
}
