/**
 Utf8: well-formed byte sequences, as Table 3-7 of the Unicode Standard (section 3.9) lists them,
 which is what the program's text decoding accepts.
 */
module Utf8 {
  newtype Byte = b: int | 0 <= b < 256

  const NEWLINE: Byte := 10
  const RETURN: Byte := 13

  predicate Within(s: seq<Byte>, i: nat, low: Byte, high: Byte) {
    i < |s| && low <= s[i] <= high
  }

  predicate Continues(s: seq<Byte>, i: nat) {
    Within(s, i, 0x80, 0xBF)
  }

  /** The length of the well-formed sequence that `s` starts with, or 0. */
  function FirstLength(s: seq<Byte>): (n: nat)
    requires s != []
    ensures n <= |s|
    ensures forall i :: 0 < i < n ==> s[i] >= 0x80
    ensures s[0] < 0x80 ==> n == 1
  {
    var b := s[0];
    if b < 0x80 then 1
    else if 0xC2 <= b <= 0xDF then
      if Continues(s, 1) then 2 else 0
    else if 0xE0 <= b <= 0xEF then
      var low: Byte := if b == 0xE0 then 0xA0 else 0x80;
      var high: Byte := if b == 0xED then 0x9F else 0xBF;
      if Within(s, 1, low, high) && Continues(s, 2) then 3 else 0
    else if 0xF0 <= b <= 0xF4 then
      var low: Byte := if b == 0xF0 then 0x90 else 0x80;
      var high: Byte := if b == 0xF4 then 0x8F else 0xBF;
      if Within(s, 1, low, high) && Continues(s, 2) && Continues(s, 3) then 4 else 0
    else 0
  }

  predicate Valid(s: seq<Byte>) {
    s == [] || (FirstLength(s) > 0 && Valid(s[FirstLength(s)..]))
  }

  /** Complete lines only: empty, or ending in a newline. */
  predicate WholeLines(s: seq<Byte>) {
    s == [] || s[|s| - 1] == NEWLINE
  }

  lemma FirstLengthOfPrefix(a: seq<Byte>, b: seq<Byte>)
    requires a != []
    requires FirstLength(a + b) <= |a| && FirstLength(a + b) > 0
    ensures FirstLength(a) == FirstLength(a + b)
  {
    var s := a + b;
    assert forall i :: 0 <= i < |a| ==> s[i] == a[i];
  }

  /** Text may be cut after a newline: the whole is valid exactly when both parts are. */
  lemma {:induction false} ValidAtNewline(a: seq<Byte>, b: seq<Byte>)
    requires WholeLines(a)
    ensures Valid(a + b) <==> Valid(a) && Valid(b)
  {
    var s := a + b;
    if a == [] {
      assert s == b;
    } else {
      assert s[0] == a[0] && s[|a| - 1] == NEWLINE;
      var n := FirstLength(s);
      assert n <= |a|;
      if n > 0 {
        FirstLengthOfPrefix(a, b);
        assert s[n..] == a[n..] + b;
        assert n < |a| ==> a[n..][|a| - n - 1] == NEWLINE;
        ValidAtNewline(a[n..], b);
      } else {
        FirstLengthGrows(a, b);
      }
    }
  }

  lemma FirstLengthGrows(a: seq<Byte>, b: seq<Byte>)
    requires a != []
    ensures FirstLength(a) > 0 ==> FirstLength(a + b) == FirstLength(a)
  {
    var s := a + b;
    assert forall i :: 0 <= i < |a| ==> s[i] == a[i];
  }

  // ---- The same from the side of the encoder ----

  /** A code point that text may hold: surrogates are not. */
  predicate Scalar(c: int) {
    0 <= c < 0xD800 || 0xE000 <= c < 0x11_0000
  }

  function Trailing(c: int): Byte {
    (0x80 + c % 64) as Byte
  }

  /** The bytes of a code point, six bits to a trailing byte. */
  function Encode(c: int): (s: seq<Byte>)
    requires Scalar(c)
    ensures 1 <= |s| <= 4
  {
    if c < 0x80 then [c as Byte]
    else if c < 0x800 then [(0xC0 + c / 64) as Byte, Trailing(c)]
    else if c < 0x1_0000 then [(0xE0 + c / 4096) as Byte, Trailing(c / 64), Trailing(c)]
    else [(0xF0 + c / 262144) as Byte, Trailing(c / 4096), Trailing(c / 64), Trailing(c)]
  }

  predicate Scalars(cs: seq<int>) {
    forall i :: 0 <= i < |cs| ==> Scalar(cs[i])
  }

  function EncodeAll(cs: seq<int>): seq<Byte>
    requires Scalars(cs)
  {
    if cs == [] then [] else Encode(cs[0]) + EncodeAll(cs[1..])
  }

  lemma EncodedIsWellFormed(c: int, rest: seq<Byte>)
    requires Scalar(c)
    ensures FirstLength(Encode(c) + rest) == |Encode(c)|
  {
    hide FirstLength, Trailing;
    var s, e := Encode(c) + rest, Encode(c);
    assert forall i :: 0 <= i < |e| ==> s[i] == e[i];
    if c < 0x80 {
      OneEncoded(c, s);
    } else if c < 0x800 {
      TwoEncoded(c, s);
    } else if c < 0x1_0000 {
      ThreeEncoded(c, s);
    } else {
      FourEncoded(c, s);
    }
  }

  lemma OneEncoded(c: int, s: seq<Byte>)
    requires 0 <= c < 0x80 && |s| >= 1 && s[0] == c as Byte
    ensures FirstLength(s) == 1
  {
  }

  lemma TwoEncoded(c: int, s: seq<Byte>)
    requires 0x80 <= c < 0x800 && |s| >= 2 && s[0] == (0xC0 + c / 64) as Byte && s[1] == Trailing(c)
    ensures FirstLength(s) == 2
  {
  }

  lemma ThreeEncoded(c: int, s: seq<Byte>)
    requires 0x800 <= c < 0x1_0000 && Scalar(c) && |s| >= 3
    requires s[0] == (0xE0 + c / 4096) as Byte && s[1] == Trailing(c / 64) && s[2] == Trailing(c)
    ensures FirstLength(s) == 3
  {
    assert c / 4096 == c / 64 / 64;
  }

  lemma FourEncoded(c: int, s: seq<Byte>)
    requires 0x1_0000 <= c < 0x11_0000 && |s| >= 4
    requires s[0] == (0xF0 + c / 262144) as Byte && s[1] == Trailing(c / 4096)
    requires s[2] == Trailing(c / 64) && s[3] == Trailing(c)
    ensures FirstLength(s) == 4
  {
    assert c / 262144 == c / 4096 / 64;
  }

  /** The code point of trailing bytes after a leading value. */
  function Shifted(lead: int, b: Byte): int {
    lead * 64 + (b as int - 0x80)
  }

  lemma ShiftedIs(lead: int, b: Byte)
    requires 0x80 <= b <= 0xBF
    ensures Shifted(lead, b) / 64 == lead && Trailing(Shifted(lead, b)) == b
  {
  }

  /** Every well-formed first sequence encodes a code point. */
  lemma WellFormedIsEncoded(s: seq<Byte>) returns (c: int)
    requires s != [] && FirstLength(s) > 0
    ensures Scalar(c) && Encode(c) == s[..FirstLength(s)]
  {
    hide Shifted, Trailing;
    var n, b := FirstLength(s), s[0] as int;
    if n == 1 {
      c := b;
    } else if n == 2 {
      c := TwoBytes(s);
    } else if n == 3 {
      c := ThreeBytes(s);
    } else {
      c := FourBytes(s);
    }
  }

  lemma TwoBytes(s: seq<Byte>) returns (c: int)
    requires s != [] && FirstLength(s) == 2
    ensures Scalar(c) && Encode(c) == s[..2]
  {
    c := Shifted(s[0] as int - 0xC0, s[1]);
    ShiftedIs(s[0] as int - 0xC0, s[1]);
  }

  lemma ThreeBytes(s: seq<Byte>) returns (c: int)
    requires s != [] && FirstLength(s) == 3
    ensures Scalar(c) && Encode(c) == s[..3]
  {
    var lead := Shifted(s[0] as int - 0xE0, s[1]);
    c := Shifted(lead, s[2]);
    ShiftedIs(s[0] as int - 0xE0, s[1]);
    ShiftedIs(lead, s[2]);
    assert c / 4096 == lead / 64;
  }

  lemma FourBytes(s: seq<Byte>) returns (c: int)
    requires s != [] && FirstLength(s) == 4
    ensures Scalar(c) && Encode(c) == s[..4]
  {
    var lead := Shifted(s[0] as int - 0xF0, s[1]);
    var middle := Shifted(lead, s[2]);
    c := Shifted(middle, s[3]);
    ShiftedIs(s[0] as int - 0xF0, s[1]);
    ShiftedIs(lead, s[2]);
    ShiftedIs(middle, s[3]);
    assert c / 4096 == middle / 64 && c / 262144 == lead / 64;
  }

  lemma {:induction false} EncodedIsValid(cs: seq<int>)
    requires Scalars(cs)
    ensures Valid(EncodeAll(cs))
  {
    hide Encode, FirstLength;
    if cs != [] {
      var rest := EncodeAll(cs[1..]);
      EncodedIsValid(cs[1..]);
      EncodedIsWellFormed(cs[0], rest);
      assert EncodeAll(cs)[|Encode(cs[0])|..] == rest;
    }
  }

  lemma {:induction false} ValidIsEncoded(s: seq<Byte>) returns (cs: seq<int>)
    requires Valid(s)
    ensures Scalars(cs) && EncodeAll(cs) == s
  {
    hide Encode, FirstLength, Scalar;
    if s == [] {
      cs := [];
    } else {
      var n := FirstLength(s);
      var c := WellFormedIsEncoded(s);
      var rest := ValidIsEncoded(s[n..]);
      cs := [c] + rest;
      assert cs[1..] == rest && s == s[..n] + s[n..];
    }
  }

  /** Valid text is exactly what encoding code points other than surrogates can give. */
  lemma ValidIffEncoded(s: seq<Byte>)
    ensures Valid(s) <==> exists cs :: Scalars(cs) && EncodeAll(cs) == s
  {
    hide Valid, EncodeAll;
    if Valid(s) {
      var cs := ValidIsEncoded(s);
    }
    if cs :| Scalars(cs) && EncodeAll(cs) == s {
      EncodedIsValid(cs);
    }
  }
}
