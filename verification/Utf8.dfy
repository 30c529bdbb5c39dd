/** Well-formed UTF-8, as section 4 of RFC 3629 gives it. */
module Utf8 {
  import opened Bytes

  predicate Within(s: Text, i: nat, low: Byte, high: Byte) {
    i < |s| && low <= s[i] <= high
  }

  predicate Tail(s: Text, i: nat) {
    Within(s, i, 0x80, 0xBF)
  }

  /** Length of the character at the front of `s`; 0 when there is no valid one. */
  function CharLength(s: Text): (n: nat)
    ensures n <= |s|
  {
    if Within(s, 0, 0x00, 0x7F) then 1
    else if Within(s, 0, 0xC2, 0xDF) && Tail(s, 1) then 2
    else if Within(s, 0, 0xE0, 0xE0) && Within(s, 1, 0xA0, 0xBF) && Tail(s, 2) then 3
    else if Within(s, 0, 0xE1, 0xEC) && Tail(s, 1) && Tail(s, 2) then 3
    else if Within(s, 0, 0xED, 0xED) && Within(s, 1, 0x80, 0x9F) && Tail(s, 2) then 3
    else if Within(s, 0, 0xEE, 0xEF) && Tail(s, 1) && Tail(s, 2) then 3
    else if Within(s, 0, 0xF0, 0xF0) && Within(s, 1, 0x90, 0xBF) && Tail(s, 2) && Tail(s, 3) then 4
    else if Within(s, 0, 0xF1, 0xF3) && Tail(s, 1) && Tail(s, 2) && Tail(s, 3) then 4
    else if Within(s, 0, 0xF4, 0xF4) && Within(s, 1, 0x80, 0x8F) && Tail(s, 2) && Tail(s, 3) then 4
    else 0
  }

  predicate IsUtf8(s: Text) {
    s == [] || (CharLength(s) > 0 && IsUtf8(s[CharLength(s)..]))
  }

  /** A Unicode scalar value: a code point that is no surrogate. */
  type Scalar = c: int | 0 <= c < 0xD800 || 0xE000 <= c < 0x110000

  function EncodeScalar(c: Scalar): Text {
    if c < 0x80 then [c as Byte]
    else if c < 0x800 then [(0xC0 + c / 0x40) as Byte, (0x80 + c % 0x40) as Byte]
    else if c < 0x10000 then [(0xE0 + c / 0x40 / 0x40) as Byte, (0x80 + c / 0x40 % 0x40) as Byte, (0x80 + c % 0x40) as Byte]
    else [(0xF0 + c / 0x40 / 0x40 / 0x40) as Byte, (0x80 + c / 0x40 / 0x40 % 0x40) as Byte, (0x80 + c / 0x40 % 0x40) as Byte, (0x80 + c % 0x40) as Byte]
  }

  function EncodeAll(cs: seq<Scalar>): Text {
    if cs == [] then [] else EncodeScalar(cs[0]) + EncodeAll(cs[1..])
  }

  lemma EncodedLength(c: Scalar, rest: Text)
    ensures CharLength(EncodeScalar(c) + rest) == |EncodeScalar(c)|
  {
    var s := EncodeScalar(c) + rest;
    assert forall i | 0 <= i < |EncodeScalar(c)| :: s[i] == EncodeScalar(c)[i];
  }

  lemma LowBits(high: int, low: int)
    requires 0 <= low < 0x40
    ensures (high * 0x40 + low) / 0x40 == high && (high * 0x40 + low) % 0x40 == low
  {
  }

  /** The scalar value of the character at the front. */
  lemma DecodeFirst(s: Text) returns (c: Scalar)
    requires CharLength(s) > 0
    ensures EncodeScalar(c) == s[..CharLength(s)]
  {
    var n := CharLength(s);
    if n == 1 {
      c := s[0] as int;
    } else if n == 2 {
      c := DecodeTwo(s);
    } else if n == 3 {
      c := DecodeThree(s);
    } else {
      c := DecodeFour(s);
    }
  }

  lemma DecodeTwo(s: Text) returns (c: Scalar)
    requires CharLength(s) == 2
    ensures EncodeScalar(c) == s[..2]
  {
    var x, y := s[0] as int - 0xC0, s[1] as int - 0x80;
    LowBits(x, y);
    c := x * 0x40 + y;
  }

  lemma DecodeThree(s: Text) returns (c: Scalar)
    requires CharLength(s) == 3
    ensures EncodeScalar(c) == s[..3]
  {
    var x, y, z := s[0] as int - 0xE0, s[1] as int - 0x80, s[2] as int - 0x80;
    LowBits(x, y);
    LowBits(x * 0x40 + y, z);
    var code := (x * 0x40 + y) * 0x40 + z;
    assert 0x800 <= code < 0xD800 || 0xE000 <= code < 0x10000;
    c := code;
  }

  lemma DecodeFour(s: Text) returns (c: Scalar)
    requires CharLength(s) == 4
    ensures EncodeScalar(c) == s[..4]
  {
    var w, x, y, z := s[0] as int - 0xF0, s[1] as int - 0x80, s[2] as int - 0x80, s[3] as int - 0x80;
    LowBits(w, x);
    LowBits(w * 0x40 + x, y);
    LowBits((w * 0x40 + x) * 0x40 + y, z);
    var code := ((w * 0x40 + x) * 0x40 + y) * 0x40 + z;
    assert 0x10000 <= code < 0x110000;
    c := code;
  }

  lemma {:induction false} EncodedIsUtf8(cs: seq<Scalar>)
    ensures IsUtf8(EncodeAll(cs))
  {
    if cs != [] {
      EncodedLength(cs[0], EncodeAll(cs[1..]));
      assert EncodeAll(cs)[|EncodeScalar(cs[0])|..] == EncodeAll(cs[1..]);
      EncodedIsUtf8(cs[1..]);
    }
  }

  lemma {:induction false} DecodeAll(s: Text) returns (cs: seq<Scalar>)
    requires IsUtf8(s)
    ensures EncodeAll(cs) == s
  {
    if s == [] {
      cs := [];
    } else {
      var c := DecodeFirst(s);
      var rest := DecodeAll(s[CharLength(s)..]);
      cs := [c] + rest;
      assert s == s[..CharLength(s)] + s[CharLength(s)..];
    }
  }

  /** A text is well formed exactly when it encodes a sequence of scalar values. */
  lemma IsUtf8Iff(s: Text)
    ensures IsUtf8(s) <==> exists cs :: EncodeAll(cs) == s
  {
    if IsUtf8(s) {
      var cs := DecodeAll(s);
    }
    if cs :| EncodeAll(cs) == s {
      EncodedIsUtf8(cs);
    }
  }

  lemma {:induction false} AsciiIsUtf8(s: Text)
    requires forall i | 0 <= i < |s| :: s[i] < 0x80
    ensures IsUtf8(s)
  {
    if s != [] {
      AsciiIsUtf8(s[1..]);
    }
  }

  /** A character is known by its own bytes, whatever follows. */
  lemma CharLengthLocal(s: Text, t: Text)
    requires CharLength(s) <= |t| && s[..CharLength(s)] == t[..CharLength(s)] && CharLength(s) > 0
    ensures CharLength(t) == CharLength(s)
  {
    forall i | 0 <= i < CharLength(s) ensures s[i] == t[i] {
      assert s[..CharLength(s)][i] == t[..CharLength(s)][i];
    }
  }

  lemma {:induction false} ConcatIsUtf8(a: Text, b: Text)
    requires IsUtf8(a) && IsUtf8(b)
    ensures IsUtf8(a + b)
  {
    if a == [] {
      assert a + b == b;
    } else {
      var n := CharLength(a);
      CharLengthLocal(a, a + b);
      assert (a + b)[n..] == a[n..] + b;
      ConcatIsUtf8(a[n..], b);
    }
  }

  /** Cut at an ASCII byte, both sides are well formed. */
  lemma {:induction false} CutIsUtf8(a: Text, c: Byte, b: Text)
    requires c < 0x80 && IsUtf8(a + [c] + b)
    ensures IsUtf8(a) && IsUtf8(b)
  {
    var s := a + [c] + b;
    var n := CharLength(s);
    assert s[|a|] == c;
    if a == [] {
      assert n == 1 && s[1..] == b;
    } else {
      assert n <= |a|;
      CharLengthLocal(s, a);
      assert s[n..] == a[n..] + [c] + b;
      CutIsUtf8(a[n..], c, b);
    }
  }

  /** The pieces of a well-formed text between slashes are well formed. */
  lemma {:induction false} SplitIsUtf8(s: Text)
    requires IsUtf8(s)
    ensures forall p | p in Split(s, SLASH) :: IsUtf8(p)
    decreases |s|
  {
    if SLASH !in s {
      SplitPiece(s, SLASH, []);
    } else {
      var i := FirstSlash(s);
      var a, b := s[..i], s[i + 1..];
      assert s == a + [SLASH] + b;
      CutIsUtf8(a, SLASH, b);
      SplitPiece(a, SLASH, b);
      SplitIsUtf8(b);
    }
  }

  lemma FirstSlash(s: Text) returns (i: nat)
    requires SLASH in s
    ensures i < |s| && s[i] == SLASH && SLASH !in s[..i]
  {
    i := 0;
    while s[i] != SLASH
      invariant i < |s| && SLASH !in s[..i] && SLASH in s[i..]
      decreases |s| - i
    {
      i := i + 1;
    }
  }
}
