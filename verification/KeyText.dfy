/** Which keys are accepted, said of the characters of a key rather than of its
    bytes. */
module KeyText {
  import opened Bytes
  import opened Engine

  /** A Unicode scalar value. */
  predicate Scalar(c: nat) {
    c < 0xD800 || 0xE000 <= c < 0x11_0000
  }

  function Cont(n: nat): byte {
    0x80 + n % 64
  }

  /** UTF-8, one character. */
  function Encode(c: nat): (b: Bytes)
    requires Scalar(c)
    ensures 1 <= |b| <= 4
  {
    if c < 0x80 then [c]
    else if c < 0x800 then [0xC0 + c / 64, Cont(c)]
    else if c < 0x1_0000 then [0xE0 + c / 4096, Cont(c / 64), Cont(c)]
    else [0xF0 + c / 262144, Cont(c / 4096), Cont(c / 64), Cont(c)]
  }

  function Utf8(text: seq<nat>): Bytes
    requires forall i :: 0 <= i < |text| ==> Scalar(text[i])
  {
    if text == [] then [] else Encode(text[0]) + Utf8(text[1..])
  }

  /** The control characters: U+0000 to U+001F and U+007F to U+009F. */
  predicate Control(c: nat) {
    c < 0x20 || 0x7F <= c < 0xA0
  }

  /** No byte sequence that spells a control character. */
  predicate Clean(k: Bytes) {
    forall i :: 0 <= i < |k| ==> !ControlAt(k, i)
  }

  lemma CharacterClean(c: nat, rest: Bytes)
    requires Scalar(c) && (rest == [] || !(0x80 <= rest[0] < 0xC0))
    ensures Clean(Encode(c) + rest) <==> !Control(c) && Clean(rest)
  {
    var first := Encode(c);
    var all := first + rest;
    assert forall i :: 0 <= i < |rest| ==> all[|first| + i] == rest[i];
    assert forall i :: 0 <= i < |rest| ==> ControlAt(all, |first| + i) == ControlAt(rest, i);
    Spelled(c);
    assert forall i :: 0 <= i < |first| ==> all[i] == first[i];
    if Control(c) {
      assert ControlAt(all, 0);
    } else {
      forall i | 0 <= i < |all| ensures ControlAt(all, i) ==> i >= |first| && ControlAt(rest, i - |first|) {
        if i >= |first| { assert all[i] == rest[i - |first|]; }
      }
    }
    if !Clean(rest) {
      var i :| 0 <= i < |rest| && ControlAt(rest, i);
      assert ControlAt(all, |first| + i);
    }
  }

  /** The bytes of one character. */
  lemma Spelled(c: nat)
    requires Scalar(c)
    ensures var b := Encode(c);
      && (c < 0x80 ==> b == [c])
      && (c >= 0x80 ==> |b| >= 2 && b[0] >= 0xC2 && forall i :: 0 < i < |b| ==> 0x80 <= b[i] < 0xC0)
      && (c >= 0x80 ==> (b[0] == 0xC2 && b[1] < 0xA0 <==> c < 0xA0))
  {
    if 0x80 <= c < 0x800 {
      assert c == 64 * (c / 64) + c % 64 && 2 <= c / 64;
    }
  }

  lemma {:induction false} TextClean(text: seq<nat>)
    requires forall i :: 0 <= i < |text| ==> Scalar(text[i])
    ensures Utf8(text) == [] <==> text == []
    ensures text != [] ==> !(0x80 <= Utf8(text)[0] < 0xC0)
    ensures Clean(Utf8(text)) <==> forall i :: 0 <= i < |text| ==> !Control(text[i])
  {
    hide Encode, Control, Clean;
    if text != [] {
      TextClean(text[1..]);
      assert Utf8(text)[0] == Encode(text[0])[0];
      Spelled(text[0]);
      CharacterClean(text[0], Utf8(text[1..]));
      assert forall i :: 0 < i < |text| ==> text[i] == text[1..][i - 1];
    } else {
      NothingClean();
    }
  }

  lemma NothingClean()
    ensures Clean([])
  {
  }

  /** A key is accepted exactly when it is not empty, takes at most 1024 bytes
      and has no control character. */
  lemma KeyRules(text: seq<nat>)
    requires forall i :: 0 <= i < |text| ==> Scalar(text[i])
    ensures ValidKey(Utf8(text)) <==>
              text != [] && |Utf8(text)| <= 1024 && forall i :: 0 <= i < |text| ==> !Control(text[i])
  {
    hide Utf8, ControlAt;
    TextClean(text);
  }
}
