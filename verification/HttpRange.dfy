/** `parse_range_header` (rest.rs) against the byte-range semantics of section
    14.1.2 of RFC 9110. Header text is a string of ASCII codes. */
module HttpRange {
  import opened Bytes
  import opened Types
  import opened ChunkFormat

  const PLUS: byte := 43
  const DASH: byte := 45
  const EQUALS: byte := 61
  const BYTES_UNIT: Bytes := [98, 121, 116, 101, 115, 61] // "bytes="

  predicate IsDigit(b: byte) {
    48 <= b < 58
  }

  predicate AllDigits(s: Bytes) {
    forall i :: 0 <= i < |s| ==> IsDigit(s[i])
  }

  /** The number a digit string denotes. */
  function Decimal(s: Bytes): nat
    requires AllDigits(s)
  {
    if s == [] then 0 else 10 * Decimal(s[..|s| - 1]) + (s[|s| - 1] - 48)
  }

  /** `str::parse::<u64>`: an optional plus sign, digits, no overflow. */
  function ParseU64(s: Bytes): Option<nat> {
    var digits := if s != [] && s[0] == PLUS then s[1..] else s;
    if digits != [] && AllDigits(digits) && Decimal(digits) < U64 then Some(Decimal(digits)) else None
  }

  /** Index of the first dash, or the length. */
  function FirstDash(s: Bytes): (i: nat)
    ensures i <= |s| && (i < |s| ==> s[i] == DASH)
    ensures forall j :: 0 <= j < i ==> s[j] != DASH
  {
    if s == [] || s[0] == DASH then 0 else 1 + FirstDash(s[1..])
  }

  /** `HeaderValue::to_str` accepts visible ASCII and tabs only. */
  predicate Visible(s: Bytes) {
    forall i :: 0 <= i < |s| ==> 32 <= s[i] < 127 || s[i] == 9
  }

  /** The offset, the length and whether a partial response is sent. */
  datatype Parsed = Parsed(offset: nat, length: nat, isRange: bool)

  const WHOLE := Parsed(0, 0, false)

  function ParseRange(header: Option<Bytes>, total: nat): (p: Parsed)
    ensures p == WHOLE || (p.isRange && p.length > 0 && p.offset + p.length <= total)
  {
    if total == 0 || header == None || !Visible(header.value) || !HasPrefix(header.value, BYTES_UNIT) then WHOLE
    else
      var range := header.value[6..];
      if range != [] && range[0] == DASH then
        match ParseU64(range[1..])
        case None => WHOLE
        case Some(n) =>
          if n == 0 then WHOLE
          else
            var start := if n <= total then total - n else 0;
            Parsed(start, total - start, true)
      else
        var dash := FirstDash(range);
        if dash == |range| then WHOLE
        else
          match ParseU64(range[..dash])
          case None => WHOLE
          case Some(start) =>
            if start >= total then WHOLE
            else
              var last := range[dash + 1..];
              var end := match ParseU64(last)
                         case Some(e) => if e < total - 1 then e else total - 1
                         case None => total - 1;
              if end < start then WHOLE else Parsed(start, end - start + 1, true)
  }

  // ---- what each form of header gives ----

  ghost function Pow10(n: nat): nat {
    if n == 0 then 1 else 10 * Pow10(n - 1)
  }

  /** The number whose decimal digits are `s`, most significant first. */
  ghost function Positional(s: Bytes): int {
    if s == [] then 0 else (s[0] - 48) * Pow10(|s| - 1) + Positional(s[1..])
  }

  lemma {:induction false} PositionalSnoc(s: Bytes, d: byte)
    ensures Positional(s + [d]) == 10 * Positional(s) + (d - 48)
  {
    if s == [] {
      assert [d][1..] == [];
      assert Pow10(0) == 1;
    } else {
      PositionalSnoc(s[1..], d);
      assert (s + [d])[1..] == s[1..] + [d];
      assert (s[0] - 48) * (10 * Pow10(|s| - 1)) == 10 * ((s[0] - 48) * Pow10(|s| - 1));
    }
  }

  lemma {:induction false} DecimalIsPositional(s: Bytes)
    requires AllDigits(s)
    ensures Decimal(s) == Positional(s)
  {
    if s != [] {
      var n := |s| - 1;
      DecimalIsPositional(s[..n]);
      PositionalSnoc(s[..n], s[n]);
      assert s[..n] + [s[n]] == s;
    }
  }

  ghost predicate Digits(s: Bytes) {
    s != [] && forall i :: 0 <= i < |s| ==> 48 <= s[i] <= 57
  }

  /** `s` is read as `n`: digits of a number below 2^64, perhaps after a plus. */
  ghost predicate Reads(s: Bytes, n: nat) {
    || (Digits(s) && Positional(s) == n && n < 0x1_0000_0000_0000_0000)
    || (s != [] && s[0] == 43 && Digits(s[1..]) && Positional(s[1..]) == n && n < 0x1_0000_0000_0000_0000)
  }

  lemma ParsesWhatReads(s: Bytes)
    ensures match ParseU64(s)
            case Some(n) => Reads(s, n)
            case None => forall n: nat :: !Reads(s, n)
    ensures forall m: nat, n: nat :: Reads(s, m) && Reads(s, n) ==> m == n
  {
    hide Decimal, Positional;
    var digits := if s != [] && s[0] == 43 then s[1..] else s;
    assert Digits(digits) <==> digits != [] && AllDigits(digits);
    if Digits(digits) { DecimalIsPositional(digits); }
  }

  /** A header with bytes that are not visible ASCII or tabs is ignored, and so is
      one that does not begin with `bytes=`. */
  ghost predicate Ignored(header: Option<Bytes>) {
    || header == None
    || (exists i :: 0 <= i < |header.value| && header.value[i] != 9 && !(32 <= header.value[i] < 127))
    || !([98, 121, 116, 101, 115, 61] <= header.value)
  }

  /** Without a header that counts, or for an empty object, everything is sent. */
  lemma IgnoredIsWhole(header: Option<Bytes>, total: nat)
    requires Ignored(header) || total == 0
    ensures ParseRange(header, total) == Parsed(0, 0, false)
  {
    hide ParseU64, FirstDash;
  }

  /** `bytes=` and no dash: everything is sent. */
  lemma NoDashIsWhole(spec: Bytes, total: nat)
    requires 45 !in spec
    ensures ParseRange(Some([98, 121, 116, 101, 115, 61] + spec), total) == Parsed(0, 0, false)
  {
    hide ParseU64;
    var h: Bytes := [98, 121, 116, 101, 115, 61] + spec;
    assert h[6..] == spec;
  }

  /** `bytes=-` and a number: that many bytes at the end, or as many as there are.
      Zero, or what is no number, is ignored. */
  lemma SuffixForm(spec: Bytes, total: nat)
    requires total > 0 && !Ignored(Some([98, 121, 116, 101, 115, 61, 45] + spec))
    ensures var r := ParseRange(Some([98, 121, 116, 101, 115, 61, 45] + spec), total);
      && (forall n: nat :: Reads(spec, n) && n > 0 ==>
            r == if n < total then Parsed(total - n, n, true) else Parsed(0, total, true))
      && (Reads(spec, 0) || (forall n: nat :: !Reads(spec, n)) ==> r == Parsed(0, 0, false))
  {
    hide ParseU64, FirstDash, Reads;
    var h: Bytes := [98, 121, 116, 101, 115, 61, 45] + spec;
    assert h[..6] == BYTES_UNIT && h[6..][1..] == spec && h[6..][0] == DASH;
    ParsesWhatReads(spec);
  }

  /** `bytes=`, a first and a last position: cut at the end of the object. A last
      position that is missing or no number stands for the end; a first one that
      is no number or beyond the end, or a last one before it, are ignored. */
  lemma IntForm(first: Bytes, last: Bytes, total: nat)
    requires total > 0 && first != [] && 45 !in first
    requires !Ignored(Some([98, 121, 116, 101, 115, 61] + first + [45] + last))
    ensures var r := ParseRange(Some([98, 121, 116, 101, 115, 61] + first + [45] + last), total);
      && ((forall n: nat :: !Reads(first, n)) ==> r == Parsed(0, 0, false))
      && forall a: nat :: Reads(first, a) ==>
           && (a >= total ==> r == Parsed(0, 0, false))
           && (a < total && (forall n: nat :: !Reads(last, n)) ==> r == Parsed(a, total - a, true))
           && (a < total ==> forall b: nat :: Reads(last, b) ==>
                 r == if b < a then Parsed(0, 0, false)
                      else if b < total then Parsed(a, b - a + 1, true)
                      else Parsed(a, total - a, true))
  {
    hide ParseU64, Reads;
    var h: Bytes := [98, 121, 116, 101, 115, 61] + first + [45] + last;
    var range := first + [DASH] + last;
    assert h[..6] == BYTES_UNIT && h[6..] == range;
    FirstDashOf(first, last);
    assert range[0] == first[0] && range[..|first|] == first && range[|first| + 1..] == last;
    ParsesWhatReads(first);
    ParsesWhatReads(last);
  }

  lemma FirstDashOf(first: Bytes, last: Bytes)
    requires 45 !in first
    ensures FirstDash(first + [DASH] + last) == |first|
  {
    var s := first + [DASH] + last;
    assert s[|first|] == DASH;
    assert forall j :: 0 <= j < |first| ==> s[j] == first[j];
  }

  // ---- RFC 9110 ----

  /** A single byte range: first and last position, or a suffix length, as the
      digits written in the header. */
  datatype ByteRange = IntRange(first: Bytes, last: Bytes) | SuffixRange(suffix: Bytes)

  /** Positions are non-empty digit strings; the last one may be left out. */
  predicate WellFormedRange(r: ByteRange) {
    match r
    case IntRange(first, last) => first != [] && AllDigits(first) && AllDigits(last)
    case SuffixRange(suffix) => suffix != [] && AllDigits(suffix)
  }

  function Lower(b: byte): byte {
    if 65 <= b < 91 then b + 32 else b
  }

  /** A spelling of the range unit `bytes`: unit names are case-insensitive. */
  predicate SpellsBytes(unit: Bytes) {
    |unit| == 5 && forall i :: 0 <= i < 5 ==> Lower(unit[i]) == BYTES_UNIT[i]
  }

  function Spec(r: ByteRange): Bytes {
    match r
    case IntRange(first, last) => first + [DASH] + last
    case SuffixRange(suffix) => [DASH] + suffix
  }

  function Header(unit: Bytes, r: ByteRange): Bytes {
    unit + [EQUALS] + Spec(r)
  }

  /** The first byte and the byte after the last one selected, if the range is
      valid and satisfiable for a representation of `total` bytes. */
  function Selected(r: ByteRange, total: nat): Option<(nat, nat)>
    requires WellFormedRange(r)
  {
    match r
    case IntRange(first, last) =>
      if Decimal(first) >= total || (last != [] && Decimal(last) < Decimal(first)) then None
      else if last == [] || Decimal(last) >= total then Some((Decimal(first), total))
      else Some((Decimal(first), Decimal(last) + 1))
    case SuffixRange(suffix) =>
      if Decimal(suffix) == 0 then None
      else if Decimal(suffix) >= total then Some((0, total))
      else Some((total - Decimal(suffix), total))
  }

  /** An unsatisfiable range is answered with the whole representation. */
  function Served(selected: Option<(nat, nat)>): Parsed
    requires selected.Some? ==> selected.value.0 <= selected.value.1
  {
    match selected
    case None => WHOLE
    case Some(r) => Parsed(r.0, r.1 - r.0, true)
  }

  lemma DigitsParse(s: Bytes)
    requires AllDigits(s)
    ensures ParseU64(s) == if s != [] && Decimal(s) < U64 then Some(Decimal(s)) else None
  {
  }

  lemma HeaderShape(unit: Bytes, r: ByteRange)
    requires SpellsBytes(unit) && WellFormedRange(r)
    ensures Visible(Header(unit, r)) && Header(unit, r)[6..] == Spec(r)
    ensures HasPrefix(Header(unit, r), BYTES_UNIT) <==> unit == BYTES_UNIT[..5]
  {
    hide Visible, SpellsBytes, Spec;
    VisibleParts(unit, r);
    VisibleAppend(unit, [EQUALS]);
    VisibleAppend(unit + [EQUALS], Spec(r));
    assert |unit| == 5 by { VisibleParts(unit, r); }
    assert Header(unit, r)[..6] == unit + [EQUALS];
    assert BYTES_UNIT == BYTES_UNIT[..5] + [EQUALS];
  }

  lemma VisibleParts(unit: Bytes, r: ByteRange)
    requires SpellsBytes(unit) && WellFormedRange(r)
    ensures |unit| == 5 && Visible(unit) && Visible([EQUALS]) && Visible(Spec(r))
  {
    forall i | 0 <= i < 5 ensures 32 <= unit[i] < 127 { assert Lower(unit[i]) == BYTES_UNIT[i]; }
  }

  lemma VisibleAppend(a: Bytes, b: Bytes)
    requires Visible(a) && Visible(b)
    ensures Visible(a + b)
  {
  }

  lemma IntRangeMatches(first: Bytes, last: Bytes, total: nat)
    requires WellFormedRange(IntRange(first, last)) && 0 < total < U64
    ensures var r := IntRange(first, last);
            ParseRange(Some(Header(BYTES_UNIT[..5], r)), total) == Served(Selected(r, total))
  {
    hide Decimal, Visible, ParseU64, FirstDash, Header;
    HeaderShape(BYTES_UNIT[..5], IntRange(first, last));
    FirstDashOf(first, last);
    var range := first + [DASH] + last;
    assert range[0] == first[0] && range[..|first|] == first && range[|first| + 1..] == last;
    DigitsParse(first);
    DigitsParse(last);
  }

  lemma SuffixRangeMatches(suffix: Bytes, total: nat)
    requires WellFormedRange(SuffixRange(suffix)) && 0 < total < U64
    ensures var r := SuffixRange(suffix);
            ParseRange(Some(Header(BYTES_UNIT[..5], r)), total) == Served(Selected(r, total))
            <==> Decimal(suffix) < U64
  {
    hide Decimal, Visible, ParseU64, FirstDash, Header;
    HeaderShape(BYTES_UNIT[..5], SuffixRange(suffix));
    assert ([DASH] + suffix)[1..] == suffix;
    DigitsParse(suffix);
  }

  /** A well-formed single range, its unit spelled in any case, is served as RFC
      9110 says if and only if nothing is selected, so that both serve everything,
      or the unit is in lower case and no suffix length is beyond 64 bits. In the
      other cases the parser serves a full response instead of the range. */
  lemma MatchesRfc9110(unit: Bytes, r: ByteRange, total: nat)
    requires SpellsBytes(unit) && WellFormedRange(r) && 0 < total < U64
    ensures ParseRange(Some(Header(unit, r)), total) == Served(Selected(r, total))
       <==> Selected(r, total) == None || (unit == BYTES_UNIT[..5] && !(r.SuffixRange? && Decimal(r.suffix) >= U64))
    ensures ParseRange(Some(Header(unit, r)), total) in {Served(Selected(r, total)), WHOLE}
  {
    hide Decimal, Header, FirstDash, ParseU64, Visible;
    HeaderShape(unit, r);
    if unit == BYTES_UNIT[..5] {
      hide ParseRange, Served;
      match r {
        case IntRange(first, last) => IntRangeMatches(first, last, total);
        case SuffixRange(suffix) => SuffixRangeMatches(suffix, total);
      }
      if r.SuffixRange? && Decimal(r.suffix) >= U64 { HugeSuffix(r, total); }
      ServedRange(r, total);
    }
  }

  lemma ServedRange(r: ByteRange, total: nat)
    requires WellFormedRange(r)
    ensures Served(Selected(r, total)) == WHOLE <==> Selected(r, total) == None
  {
  }

  /** A suffix length beyond 64 bits. */
  lemma HugeSuffix(r: ByteRange, total: nat)
    requires WellFormedRange(r) && total < U64 && r.SuffixRange? && Decimal(r.suffix) >= U64
    ensures ParseRange(Some(Header(BYTES_UNIT[..5], r)), total) == WHOLE && Selected(r, total) == Some((0, total))
  {
  }
}
