/** The text of the write-ahead log (index.rs): one encoded entry per line,
    replayed up to the first line that does not parse, whose torn tail is cut.

    The entry codec (JSON in the program) is a parameter. `Codec.Good` lists
    what is used of it; `HexCodecIsGood` exhibits a concrete codec that has it. */
module LogText {
  import opened Bytes
  import opened Types
  import Hex

  const NEWLINE: byte := 10
  const RETURN: byte := 13

  /** `utf8` is the validity check made while reading a line as a string. */
  datatype Codec<!E> = Codec(enc: E -> Bytes, dec: Bytes -> Option<E>, utf8: Bytes -> bool)

  ghost predicate Good<E(!new)>(c: Codec<E>) {
    && (forall e :: GoodEntry(c, e))
    && (forall a, b :: GoodPair(c, a, b))
  }

  ghost predicate GoodEntry<E>(c: Codec<E>, e: E) {
    var text := c.enc(e);
    && text != [] && NEWLINE !in text && RETURN !in text
    && c.utf8(text) && c.dec(text) == Some(e)
    && forall n :: 0 < n < |text| ==> c.dec(text[..n]) == None
  }

  ghost predicate GoodPair<E>(c: Codec<E>, a: E, b: E) {
    c.utf8(c.enc(a) + c.enc(b)) && c.dec(c.enc(a) + c.enc(b)) == None
  }

  function Line<E>(c: Codec<E>, e: E): Bytes {
    c.enc(e) + [NEWLINE]
  }

  /** The log file holding exactly `es`. */
  function Render<E>(c: Codec<E>, es: seq<E>): Bytes {
    if es == [] then [] else Line(c, es[0]) + Render(c, es[1..])
  }

  lemma {:induction false} RenderAppend<E>(c: Codec<E>, a: seq<E>, b: seq<E>)
    ensures Render(c, a + b) == Render(c, a) + Render(c, b)
  {
    if a == [] {
      assert a + b == b;
    } else {
      var first, rest := a[0], a[1..];
      RenderAppend(c, rest, b);
      assert a + b == [first] + (rest + b);
      assert Line(c, first) + (Render(c, rest) + Render(c, b)) == (Line(c, first) + Render(c, rest)) + Render(c, b);
    }
  }

  lemma RenderSnoc<E>(c: Codec<E>, a: seq<E>, e: E)
    ensures Render(c, a + [e]) == Render(c, a) + Line(c, e)
  {
    RenderAppend(c, a, [e]);
    assert Render(c, [e]) == Line(c, e) + Render(c, [e][1..]) == Line(c, e);
  }

  /** Bytes before the first newline. */
  function LineLength(file: Bytes): (n: nat)
    ensures n <= |file|
    ensures NEWLINE !in file[..n]
    ensures n < |file| ==> file[n] == NEWLINE
  {
    if file == [] || file[0] == NEWLINE then 0
    else
      var n := LineLength(file[1..]);
      assert file[..n + 1] == [file[0]] + file[1..][..n];
      n + 1
  }

  lemma {:induction false} LineLengthOf(text: Bytes, rest: Bytes)
    requires NEWLINE !in text
    requires rest == [] || rest[0] == NEWLINE
    ensures LineLength(text + rest) == |text|
  {
    if text == [] {
      assert text + rest == rest;
    } else {
      LineLengthOf(text[1..], rest);
      assert (text + rest)[1..] == text[1..] + rest;
    }
  }

  /** A line as `BufRead::lines` yields it: its newline removed, and a carriage
      return before that newline too. */
  function Strip(raw: Bytes, terminated: bool): Bytes {
    if terminated && raw != [] && raw[|raw| - 1] == RETURN then raw[..|raw| - 1] else raw
  }

  /** What a replay pass finds: the entries before the first bad line, the
      offset computed as the end of the last good line, and whether a bad line
      stopped it. */
  datatype Scan<E> = Scan(entries: seq<E>, goodLen: nat, truncated: bool)

  function Prepend<E>(es: seq<E>, len: nat, r: Result<Scan<E>>): Result<Scan<E>> {
    match r
    case Err(x) => Err(x)
    case Ok(s) => Ok(Scan(es + s.entries, len + s.goodLen, s.truncated))
  }

  function RawLine(file: Bytes): Bytes {
    file[..LineLength(file)]
  }

  function AfterLine(file: Bytes): (rest: Bytes)
    ensures file != [] ==> |rest| < |file|
    ensures rest != [] ==> |RawLine(file)| + 1 + |rest| == |file|
  {
    if LineLength(file) < |file| then file[LineLength(file) + 1..] else []
  }

  function FirstLine(file: Bytes): (line: Bytes)
    ensures |line| <= |RawLine(file)|
  {
    Strip(RawLine(file), LineLength(file) < |file|)
  }

  function Parse<E>(c: Codec<E>, file: Bytes): Result<Scan<E>>
    decreases |file|
  {
    if file == [] then Ok(Scan([], 0, false))
    else if !c.utf8(RawLine(file)) then Err(Io)
    else if FirstLine(file) == [] then Prepend([], 1, Parse(c, AfterLine(file)))
    else match c.dec(FirstLine(file))
      case None => Ok(Scan([], 0, true))
      case Some(e) => Prepend([e], |FirstLine(file)| + 1, Parse(c, AfterLine(file)))
  }

  /** The computed offset never lies beyond the file when a bad line was met. */
  lemma {:induction false} GoodLenInFile<E>(c: Codec<E>, file: Bytes)
    ensures var r := Parse(c, file); r.Ok? && r.value.truncated ==> r.value.goodLen <= |file|
    decreases |file|
  {
    if file != [] {
      GoodLenInFile(c, AfterLine(file));
    }
  }

  /** The file left on disk by a successful open. */
  function Recovered<E>(file: Bytes, s: Scan<E>): Bytes
  {
    if s.truncated && s.goodLen <= |file| then file[..s.goodLen] else file
  }

  /** One iteration of the replay loop, after `es` read up to `len`. */
  lemma ParseStep<E(!new)>(c: Codec<E>, es: seq<E>, len: nat, file: Bytes)
    requires file != []
    ensures var r := Prepend(es, len, Parse(c, file));
            var line := FirstLine(file);
            if !c.utf8(RawLine(file)) then r == Err(Io)
            else if line == [] then r == Prepend(es, len + 1, Parse(c, AfterLine(file)))
            else match c.dec(line)
                 case None => r == Ok(Scan(es, len, true))
                 case Some(e) => r == Prepend(es + [e], len + |line| + 1, Parse(c, AfterLine(file)))
  {
    hide LineLength, RawLine, FirstLine, AfterLine, Strip, Prepend;
    var tail := Parse(c, AfterLine(file));
    if !c.utf8(RawLine(file)) {
      PrependFailed(es, len);
    } else if FirstLine(file) == [] {
      PrependTwice(es, len, [], 1, tail);
      assert es + [] == es;
    } else if c.dec(FirstLine(file)).Some? {
      PrependTwice(es, len, [c.dec(FirstLine(file)).value], |FirstLine(file)| + 1, tail);
    } else {
      PrependBad(es, len);
    }
  }

  lemma PrependFailed<E>(es: seq<E>, len: nat)
    ensures Prepend(es, len, Err(Io)) == Err(Io)
  {
  }

  lemma PrependBad<E>(es: seq<E>, len: nat)
    ensures Prepend(es, len, Ok(Scan([], 0, true))) == Ok(Scan(es, len, true))
  {
    assert es + [] == es;
  }

  lemma ParseEnd<E(!new)>(c: Codec<E>, es: seq<E>, len: nat)
    ensures Prepend(es, len, Parse(c, [])) == Ok(Scan(es, len, false))
  {
    assert es + [] == es;
  }

  lemma ParseLine<E(!new)>(c: Codec<E>, e: E, rest: Bytes)
    requires GoodEntry(c, e)
    ensures Parse(c, Line(c, e) + rest) == Prepend([e], |Line(c, e)|, Parse(c, rest))
  {
    var text := c.enc(e);
    var file := Line(c, e) + rest;
    assert file == text + ([NEWLINE] + rest);
    LineLengthOf(text, [NEWLINE] + rest);
    assert RawLine(file) == text && AfterLine(file) == rest;
    assert text[|text| - 1] in text;
    assert FirstLine(file) == text;
  }

  lemma ParseTail<E(!new)>(c: Codec<E>, tail: Bytes)
    requires tail != [] && NEWLINE !in tail
    ensures Parse(c, tail) ==
              if !c.utf8(tail) then Err(Io)
              else match c.dec(tail)
                   case None => Ok(Scan([], 0, true))
                   case Some(e) => Ok(Scan([e], |tail| + 1, false))
  {
    LineLengthOf(tail, []);
    assert tail + [] == tail;
    assert RawLine(tail) == tail && FirstLine(tail) == tail && AfterLine(tail) == [];
    if c.dec(tail).Some? {
      assert [c.dec(tail).value] + [] == [c.dec(tail).value];
    }
  }

  /** Complete lines replay to their entries, whatever follows them. */
  lemma {:induction false} ParseAfter<E(!new)>(c: Codec<E>, es: seq<E>, rest: Bytes)
    requires Good(c)
    ensures Parse(c, Render(c, es) + rest) == Prepend(es, |Render(c, es)|, Parse(c, rest))
  {
    hide Parse, GoodEntry, GoodPair, Prepend, Line;
    if es == [] {
      assert Render(c, es) + rest == rest;
      PrependNothing(Parse(c, rest));
    } else {
      var line, tail := Line(c, es[0]), Render(c, es[1..]);
      assert GoodEntry(c, es[0]);
      assert Render(c, es) + rest == line + (tail + rest);
      ParseLine(c, es[0], tail + rest);
      ParseAfter(c, es[1..], rest);
      PrependTwice([es[0]], |line|, es[1..], |tail|, Parse(c, rest));
      assert [es[0]] + es[1..] == es;
    }
  }

  lemma PrependNothing<E>(r: Result<Scan<E>>)
    ensures Prepend([], 0, r) == r
  {
    if r.Ok? { assert [] + r.value.entries == r.value.entries; }
  }

  lemma PrependTwice<E>(a: seq<E>, m: nat, b: seq<E>, n: nat, r: Result<Scan<E>>)
    ensures Prepend(a, m, Prepend(b, n, r)) == Prepend(a + b, m + n, r)
  {
    if r.Ok? { assert a + (b + r.value.entries) == (a + b) + r.value.entries; }
  }

  /** Replaying an intact log gives back its entries and truncates nothing. */
  lemma ParseRendered<E(!new)>(c: Codec<E>, es: seq<E>)
    requires Good(c)
    ensures Parse(c, Render(c, es)) == Ok(Scan(es, |Render(c, es)|, false))
  {
    ParseAfter(c, es, []);
    assert Render(c, es) + [] == Render(c, es) && es + [] == es;
  }

  /** How many lines, newline included, lie in the first `k` bytes. */
  function WholeLines<E>(c: Codec<E>, es: seq<E>, k: nat): (n: nat)
    ensures n <= |es|
  {
    if es == [] || k <= |c.enc(es[0])| then 0 else 1 + WholeLines(c, es[1..], k - |c.enc(es[0])| - 1)
  }

  /** The bytes after the last newline of the first `k` bytes. */
  function Tail<E>(c: Codec<E>, es: seq<E>, k: nat): Bytes {
    if es == [] then []
    else if k <= |c.enc(es[0])| then c.enc(es[0])[..k]
    else Tail(c, es[1..], k - |c.enc(es[0])| - 1)
  }

  /** The cut took away the newline of a complete entry and nothing else of it. */
  predicate LostNewline<E>(c: Codec<E>, es: seq<E>, k: nat) {
    var n := WholeLines(c, es, k);
    n < |es| && Tail(c, es, k) == c.enc(es[n])
  }

  /** How many entries have their whole text in the first `k` bytes. */
  function Complete<E>(c: Codec<E>, es: seq<E>, k: nat): (n: nat)
    ensures n <= |es|
  {
    WholeLines(c, es, k) + if LostNewline(c, es, k) then 1 else 0
  }

  /** Every cut of a log is whole lines and the beginning of the next entry. */
  lemma {:induction false} CutShape<E>(c: Codec<E>, es: seq<E>, k: nat)
    requires k <= |Render(c, es)|
    ensures var n := WholeLines(c, es, k);
            && Render(c, es)[..k] == Render(c, es[..n]) + Tail(c, es, k)
            && (if n < |es| then Tail(c, es, k) <= c.enc(es[n]) else Tail(c, es, k) == [])
    decreases |es|, 1
  {
    if es == [] {
      assert WholeLines(c, es, k) == 0 && Tail(c, es, k) == [] && k == 0;
      assert Render(c, es)[..k] == [];
    } else {
      var text, rest := c.enc(es[0]), es[1..];
      RenderFirst(c, es);
      if k <= |text| {
        assert WholeLines(c, es, k) == 0 && Tail(c, es, k) == text[..k];
        CutText(text, Render(c, rest), k);
      } else {
        var j := k - |text| - 1;
        var n := WholeLines(c, rest, j);
        assert WholeLines(c, es, k) == n + 1 && Tail(c, es, k) == Tail(c, rest, j);
        CutRest(c, es, k, n);
      }
    }
  }

  lemma RenderFirst<E>(c: Codec<E>, es: seq<E>)
    ensures Render(c, es[..0]) == []
    ensures es != [] ==> Render(c, es) == Line(c, es[0]) + Render(c, es[1..])
  {
  }

  lemma CutText(text: Bytes, rest: Bytes, k: nat)
    requires k <= |text|
    ensures ((text + [NEWLINE]) + rest)[..k] == [] + text[..k]
  {
  }

  /** The cut lies behind the first line. */
  lemma {:induction false} CutRest<E>(c: Codec<E>, es: seq<E>, k: nat, n: nat)
    requires es != [] && |c.enc(es[0])| < k <= |Render(c, es)|
    requires n == WholeLines(c, es[1..], k - |c.enc(es[0])| - 1)
    ensures var tail := Tail(c, es[1..], k - |c.enc(es[0])| - 1);
            && Render(c, es)[..k] == Render(c, es[..n + 1]) + tail
            && (if n + 1 < |es| then tail <= c.enc(es[n + 1]) else tail == [])
    decreases |es|, 0
  {
    hide WholeLines, Tail, Render;
    var rest, j := es[1..], k - |c.enc(es[0])| - 1;
    RenderFirst(c, es);
    RenderFirst(c, es[..n + 1]);
    CutShape(c, rest, j);
    assert es[..n + 1][0] == es[0] && es[..n + 1][1..] == rest[..n];
    CutLine(Line(c, es[0]), Render(c, rest), j, Render(c, rest[..n]), Tail(c, rest, j));
  }

  lemma CutLine(line: Bytes, file: Bytes, j: nat, whole: Bytes, tail: Bytes)
    requires j <= |file| && file[..j] == whole + tail
    ensures (line + file)[..|line| + j] == (line + whole) + tail
  {
    assert (line + file)[..|line| + j] == line + file[..j];
  }

  /** A cut at the end of an entry is a clean one. */
  lemma {:induction false} CleanCut<E>(c: Codec<E>, es: seq<E>, n: nat, k: nat)
    requires n <= |es| && |Render(c, es[..n])| <= k <= |Render(c, es)|
    ensures WholeLines(c, es, k) >= n
  {
    if n > 0 {
      var j := k - |c.enc(es[0])| - 1;
      assert es[..n][1..] == es[1..][..n - 1];
      CleanCut(c, es[1..], n - 1, j);
    }
  }

  /** Replaying any byte prefix of a log: the complete entries, or an I/O error
      when the torn tail stops inside a multi-byte character. The tail is cut
      back to the last complete line, except that a complete entry which lost
      only its newline is kept as it is. */
  lemma TornLog<E(!new)>(c: Codec<E>, es: seq<E>, k: nat)
    requires Good(c) && k <= |Render(c, es)|
    ensures var file := Render(c, es)[..k];
            var tail := Tail(c, es, k);
            var n := WholeLines(c, es, k);
            if tail != [] && !c.utf8(tail) then Parse(c, file) == Err(Io)
            else
              && Parse(c, file).Ok?
              && Parse(c, file).value.entries == es[..Complete(c, es, k)]
              && Recovered(file, Parse(c, file).value) ==
                 Render(c, es[..n]) + if LostNewline(c, es, k) then tail else []
  {
    hide Parse, Render, LineLength, Tail, WholeLines, GoodEntry, GoodPair;
    var tail := Tail(c, es, k);
    var n := WholeLines(c, es, k);
    CutShape(c, es, k);
    ParseAfter(c, es[..n], tail);
    if tail == [] {
      assert n < |es| ==> c.enc(es[n]) != [] by { EntryNotEmpty(c); }
      CleanTail(c, es[..n]);
    } else {
      ParseTornEntry(c, es[n], tail);
      if tail == c.enc(es[n]) {
        assert es[..n + 1] == es[..n] + [es[n]];
      } else if c.utf8(tail) {
        TornTail(c, es[..n], tail);
      }
    }
  }

  lemma EntryNotEmpty<E(!new)>(c: Codec<E>)
    requires Good(c)
    ensures forall e :: c.enc(e) != []
  {
    forall e ensures c.enc(e) != [] { assert GoodEntry(c, e); }
  }

  lemma CleanTail<E(!new)>(c: Codec<E>, es: seq<E>)
    ensures Prepend(es, |Render(c, es)|, Parse(c, [])) == Ok(Scan(es, |Render(c, es)|, false))
    ensures Render(c, es) + [] == Render(c, es)
  {
    assert es + [] == es;
  }

  lemma TornTail<E(!new)>(c: Codec<E>, es: seq<E>, tail: Bytes)
    ensures Prepend(es, |Render(c, es)|, Ok(Scan([], 0, true))) == Ok(Scan(es, |Render(c, es)|, true))
    ensures (Render(c, es) + tail)[..|Render(c, es)|] == Render(c, es) + []
  {
    assert es + [] == es;
  }

  lemma ParseTornEntry<E(!new)>(c: Codec<E>, e: E, tail: Bytes)
    requires Good(c) && tail != [] && tail <= c.enc(e)
    ensures Parse(c, tail) ==
              if !c.utf8(tail) then Err(Io)
              else if tail == c.enc(e) then Ok(Scan([e], |tail| + 1, false))
              else Ok(Scan([], 0, true))
  {
    assert GoodEntry(c, e);
    assert tail == c.enc(e)[..|tail|];
    assert forall b :: b in tail ==> b in c.enc(e);
    ParseTail(c, tail);
  }

  /** After a torn log is reopened, one more append and a second reopen give the
      recovered entries followed by the appended one, if and only if the cut was
      not one that lost exactly a final newline. When it was, the appended entry
      runs into the kept one and the second reopen drops both. */
  lemma AppendAfterRecovery<E(!new)>(c: Codec<E>, es: seq<E>, k: nat, e: E)
    requires Good(c) && k <= |Render(c, es)|
    requires Tail(c, es, k) == [] || c.utf8(Tail(c, es, k))
    ensures var file := Render(c, es)[..k];
            Parse(c, file).Ok? &&
            var recovered := Parse(c, file).value;
            var again := Parse(c, Recovered(file, recovered) + Line(c, e));
            && again.Ok?
            && (again.value.entries == recovered.entries + [e] <==> !LostNewline(c, es, k))
            && (LostNewline(c, es, k) ==> again.value.entries == es[..WholeLines(c, es, k)])
  {
    hide Parse, LineLength, Tail, WholeLines, GoodEntry, GoodPair;
    TornLog(c, es, k);
    var n := WholeLines(c, es, k);
    if LostNewline(c, es, k) {
      ParseAfterJoin(c, es[..n], es[n], e);
      assert |es[..n]| < |es[..n + 1] + [e]|;
    } else {
      assert Render(c, es[..n]) + [] == Render(c, es[..n]);
      RenderSnoc(c, es[..n], e);
      ParseRendered(c, es[..n] + [e]);
    }
  }

  lemma {:induction false} CutAtLineEnd<E>(c: Codec<E>, es: seq<E>, n: nat)
    requires n <= |es| && forall e :: c.enc(e) != []
    ensures var k := |Render(c, es[..n])|;
            k <= |Render(c, es)| && WholeLines(c, es, k) == n && Tail(c, es, k) == []
  {
    if n > 0 {
      CutAtLineEnd(c, es[1..], n - 1);
      assert es[..n][0] == es[0] && es[..n][1..] == es[1..][..n - 1];
    }
  }

  lemma {:induction false} RenderGrows<E>(c: Codec<E>, es: seq<E>, m: nat, n: nat)
    requires m <= n <= |es|
    ensures |Render(c, es[..m])| <= |Render(c, es[..n])|
  {
    RenderAppend(c, es[..m], es[m..n]);
    assert es[..n] == es[..m] + es[m..n];
  }

  /** A crash during recovery: what open leaves of a cut log is again a cut of the
      same log, behind everything that was synced, and recovers to the same
      entries and the same file. */
  lemma RecoveryAgain<E(!new)>(c: Codec<E>, es: seq<E>, k: nat, synced: nat)
    requires Good(c) && synced <= |es| && |Render(c, es[..synced])| <= k <= |Render(c, es)|
    requires Tail(c, es, k) == [] || c.utf8(Tail(c, es, k))
    ensures var file := Render(c, es)[..k];
            Parse(c, file).Ok? &&
            var left := Recovered(file, Parse(c, file).value);
            && |Render(c, es[..synced])| <= |left| <= k && left == Render(c, es)[..|left|]
            && Parse(c, left).Ok? && Parse(c, left).value.entries == Parse(c, file).value.entries
            && Recovered(left, Parse(c, left).value) == left
  {
    hide Parse, Render, LineLength, Tail, WholeLines, GoodEntry, GoodPair;
    TornLog(c, es, k);
    CutShape(c, es, k);
    CleanCut(c, es, synced, k);
    var n := WholeLines(c, es, k);
    if !LostNewline(c, es, k) {
      EntryNotEmpty(c);
      CutAtLineEnd(c, es, n);
      RenderGrows(c, es, synced, n);
      var left := Render(c, es[..n]);
      TornLog(c, es, |left|);
      assert left + [] == left;
      assert Render(c, es)[..|left|] == Render(c, es)[..k][..|left|] == left;
    }
  }

  /** An entry appended to a line whose newline was lost is lost with it. */
  lemma ParseAfterJoin<E(!new)>(c: Codec<E>, es: seq<E>, a: E, b: E)
    requires Good(c)
    ensures var r := Parse(c, Render(c, es) + c.enc(a) + Line(c, b));
            r.Ok? && r.value.entries == es
  {
    hide Parse, Render, LineLength, GoodEntry, GoodPair, Line;
    var joined := c.enc(a) + c.enc(b) + [NEWLINE];
    assert Line(c, b) == c.enc(b) + [NEWLINE] by { LineIs(c, b); }
    assert Render(c, es) + c.enc(a) + (c.enc(b) + [NEWLINE]) == Render(c, es) + joined;
    ParseJoined(c, a, b);
    ParseAfter(c, es, joined);
    assert es + [] == es;
  }

  lemma LineIs<E>(c: Codec<E>, e: E)
    ensures Line(c, e) == c.enc(e) + [NEWLINE]
  {
  }

  /** Two entries on one line do not parse. */
  lemma ParseJoined<E(!new)>(c: Codec<E>, a: E, b: E)
    requires Good(c)
    ensures Parse(c, c.enc(a) + c.enc(b) + [NEWLINE]) == Ok(Scan([], 0, true))
  {
    assert GoodEntry(c, a) && GoodEntry(c, b) && GoodPair(c, a, b);
    var text := c.enc(a) + c.enc(b);
    LineLengthOf(text, [NEWLINE]);
    assert RawLine(text + [NEWLINE]) == text;
    assert text[|text| - 1] == c.enc(b)[|c.enc(b)| - 1];
    assert text[|text| - 1] in c.enc(b);
    assert FirstLine(text + [NEWLINE]) == text;
  }

  // ---- a concrete codec ----

  /** `{` hexadecimal `}` with ASCII as the character check. */
  function HexCodec(): Codec<Bytes> {
    Codec(
      (b: Bytes) => [123] + Hex.Encode(b) + [125],
      (s: Bytes) => if |s| >= 2 && s[0] == 123 && s[|s| - 1] == 125 then Hex.Decode(s[1..|s| - 1]) else None,
      (s: Bytes) => forall i :: 0 <= i < |s| ==> s[i] < 128)
  }

  lemma HexEntry(e: Bytes)
    ensures GoodEntry(HexCodec(), e)
  {
    hide Hex.Encode, Hex.Decode;
    var c := HexCodec();
    var text := c.enc(e);
    Hex.RoundTrip(e);
    Hex.OnlyDigits(e);
    assert text[1..|text| - 1] == Hex.Encode(e);
    forall i | 0 <= i < |text| ensures text[i] !in {10, 13} && text[i] < 128 {
      if 0 < i < |text| - 1 { assert Hex.IsDigit(Hex.Encode(e)[i - 1]); }
    }
    forall n | 0 < n < |text| ensures c.dec(text[..n]) == None {
      if n > 1 { assert Hex.IsDigit(Hex.Encode(e)[n - 2]) && text[..n][n - 1] == Hex.Encode(e)[n - 2]; }
    }
  }

  lemma HexPair(a: Bytes, b: Bytes)
    ensures GoodPair(HexCodec(), a, b)
  {
    HexEntry(a);
    HexEntry(b);
    JoinedHex(Hex.Encode(a), Hex.Encode(b));
  }

  lemma JoinedHex(x: Bytes, y: Bytes)
    ensures HexCodec().dec(([123] + x + [125]) + ([123] + y + [125])) == None
  {
    hide Hex.Decode;
    var text := ([123] + x + [125]) + ([123] + y + [125]);
    var inner := text[1..|text| - 1];
    assert inner == x + ([125] + ([123] + y));
    assert inner[|x|] == 125 && !Hex.IsDigit(inner[|x|]);
    Hex.DecodeNeedsDigits(inner, |x|);
  }

  lemma HexCodecIsGood()
    ensures Good(HexCodec())
  {
    forall e ensures GoodEntry(HexCodec(), e) { HexEntry(e); }
    forall a, b ensures GoodPair(HexCodec(), a, b) { HexPair(a, b); }
  }

  /** Entries serialised to bytes and written by a codec for bytes. */
  function Composed<E>(c: Codec<Bytes>, ser: E -> Bytes, de: Bytes -> Option<E>): Codec<E> {
    Codec(
      (e: E) => c.enc(ser(e)),
      (s: Bytes) => match c.dec(s) case None => None case Some(b) => de(b),
      c.utf8)
  }

  /** Whatever serialisation of entries can be read back gives a good codec. */
  lemma ComposedIsGood<E(!new)>(c: Codec<Bytes>, ser: E -> Bytes, de: Bytes -> Option<E>)
    requires Good(c) && forall e :: de(ser(e)) == Some(e)
    ensures Good(Composed(c, ser, de))
  {
    var d := Composed(c, ser, de);
    forall e ensures GoodEntry(d, e) { assert GoodEntry(c, ser(e)); }
    forall a, b ensures GoodPair(d, a, b) { assert GoodPair(c, ser(a), ser(b)); }
  }

  // ---- logs that open does not repair ----

  /** One entry whose newline was cut off: it is recovered, but after the next
      append both are gone. */
  lemma NewlineLost(a: Bytes, b: Bytes)
    ensures var c := HexCodec();
            var file := Line(c, a)[..|Line(c, a)| - 1];
            && Parse(c, file).Ok? && Parse(c, file).value.entries == [a]
            && Recovered(file, Parse(c, file).value) == file
            && Parse(c, file + Line(c, b)).Ok? && Parse(c, file + Line(c, b)).value.entries == []
  {
    hide Parse, LineLength, HexCodec, Good;
    HexCodecIsGood();
    HexEntry(a);
    LostAtEnd(HexCodec(), a, b);
  }

  lemma LostAtEnd<E(!new)>(c: Codec<E>, a: E, b: E)
    requires Good(c) && c.utf8(c.enc(a))
    ensures var file := Line(c, a)[..|Line(c, a)| - 1];
            && Parse(c, file).Ok? && Parse(c, file).value.entries == [a]
            && Recovered(file, Parse(c, file).value) == file
            && Parse(c, file + Line(c, b)).Ok? && Parse(c, file + Line(c, b)).value.entries == []
  {
    hide Parse, LineLength, Good, Recovered;
    var k := |c.enc(a)|;
    assert Render(c, [a]) == Line(c, a) by { OneLine(c, a); }
    assert c.enc(a)[..k] == c.enc(a);
    TornLog(c, [a], k);
    AppendAfterRecovery(c, [a], k, b);
    assert Render(c, [a][..0]) + c.enc(a) == c.enc(a);
  }

  lemma OneLine<E>(c: Codec<E>, a: E)
    ensures Render(c, [a]) == Line(c, a)
  {
    assert Render(c, [a]) == Line(c, a) + Render(c, [a][1..]) == Line(c, a);
  }

  const LEAD: byte := 0xC2
  const TAIL: byte := 0xBB

  /** Like `HexCodec`, but entries end in a two-byte character. */
  function WideCodec(): Codec<Bytes> {
    Codec(
      (b: Bytes) => [123] + Hex.Encode(b) + [LEAD, TAIL],
      (s: Bytes) => if |s| >= 3 && s[0] == 123 && s[|s| - 2..] == [LEAD, TAIL] then Hex.Decode(s[1..|s| - 2]) else None,
      (s: Bytes) => forall i :: 0 <= i < |s| ==> Character(s, i))
  }

  /** Byte `i` is ASCII or belongs to the two-byte character. */
  predicate Character(s: Bytes, i: nat)
    requires i < |s|
  {
    s[i] < 128 || (s[i] == LEAD && i + 1 < |s| && s[i + 1] == TAIL) || (s[i] == TAIL && i > 0 && s[i - 1] == LEAD)
  }

  lemma WideText(e: Bytes)
    ensures var text := WideCodec().enc(e);
            && |text| == |Hex.Encode(e)| + 3 && text[0] == 123 && text[|text| - 2..] == [LEAD, TAIL]
            && text[1..|text| - 2] == Hex.Encode(e)
            && forall i :: 0 < i < |text| - 2 ==> Hex.IsDigit(text[i])
  {
    hide Hex.Encode;
    Hex.OnlyDigits(e);
    var text := WideCodec().enc(e);
    forall i | 0 < i < |text| - 2 ensures Hex.IsDigit(text[i]) { assert text[i] == Hex.Encode(e)[i - 1]; }
  }

  lemma WideEntry(e: Bytes)
    ensures GoodEntry(WideCodec(), e)
  {
    hide Hex.Encode, Hex.Decode, Character, Hex.IsDigit;
    var c := WideCodec();
    var text := c.enc(e);
    WideText(e);
    Hex.RoundTrip(e);
    WideCharacters(text);
    forall m | 0 < m < |text| ensures c.dec(text[..m]) == None { WidePrefix(text, m); }
  }

  lemma WideCharacters(text: Bytes)
    requires |text| >= 3 && text[0] == 123 && text[|text| - 2..] == [LEAD, TAIL]
    requires forall i :: 0 < i < |text| - 2 ==> Hex.IsDigit(text[i])
    ensures forall i :: 0 <= i < |text| ==> Character(text, i)
    ensures NEWLINE !in text && RETURN !in text
  {
    assert text[|text| - 2] == LEAD && text[|text| - 1] == TAIL;
    forall i | 0 <= i < |text| ensures text[i] !in {NEWLINE, RETURN} && Character(text, i) {
      if 0 < i < |text| - 2 { assert Hex.IsDigit(text[i]); }
    }
  }

  lemma WidePrefix(text: Bytes, m: nat)
    requires |text| >= 3 && 0 < m < |text|
    requires forall i :: 0 < i < |text| - 2 ==> Hex.IsDigit(text[i])
    ensures WideCodec().dec(text[..m]) == None
  {
    hide Hex.Decode;
    if m >= 3 {
      assert text[..m][m - 2..] == [text[m - 2], text[m - 1]];
      assert Hex.IsDigit(text[m - 2]);
    }
  }

  lemma WidePair(a: Bytes, b: Bytes)
    ensures GoodPair(WideCodec(), a, b)
  {
    hide Hex.Encode, Hex.Decode, Character;
    var c := WideCodec();
    var x, y := c.enc(a), c.enc(b);
    WideText(a);
    WideText(b);
    WideEntry(a);
    WideEntry(b);
    forall i | 0 <= i < |x + y| ensures Character(x + y, i) { JoinedCharacter(x, y, i); }
    JoinedWide(x, y);
  }

  lemma JoinedCharacter(x: Bytes, y: Bytes, i: nat)
    requires i < |x + y| && y != [] && y[0] < 128
    requires if i < |x| then Character(x, i) else Character(y, i - |x|)
    ensures Character(x + y, i)
  {
  }

  lemma JoinedWide(x: Bytes, y: Bytes)
    requires |x| >= 3 && |y| >= 3 && x[|x| - 2] == LEAD
    ensures WideCodec().dec(x + y) == None
  {
    hide Hex.Decode;
    var text := x + y;
    var inner := text[1..|text| - 2];
    assert inner[|x| - 3] == LEAD && !Hex.IsDigit(LEAD);
    Hex.DecodeNeedsDigits(inner, |x| - 3);
  }

  /** A good codec, and a cut inside its last character: the log cannot be
      opened. */
  lemma CharacterTorn(e: Bytes)
    ensures Good(WideCodec())
    ensures var c := WideCodec();
            var file := Line(c, e)[..|Line(c, e)| - 2];
            Parse(c, file) == Err(Io)
  {
    hide Parse, LineLength, Hex.Encode, Hex.Decode;
    var c := WideCodec();
    forall x ensures GoodEntry(c, x) { WideEntry(x); }
    forall a, b ensures GoodPair(c, a, b) { WidePair(a, b); }
    WideText(e);
    var k := |c.enc(e)| - 1;
    OneLine(c, e);
    var tail := c.enc(e)[..k];
    assert tail[k - 1] == LEAD && !Character(tail, k - 1);
    TornLog(c, [e], k);
    assert Line(c, e)[..k] == tail;
  }
}
