/** Unpadded base64url, as section 5 of RFC 4648 gives it. */
module Base64Url {
  import opened Bytes

  type Sextet = n: int | 0 <= n < 64

  function Symbol(n: Sextet): Byte {
    if n < 26 then (65 + n) as Byte
    else if n < 52 then (97 + n - 26) as Byte
    else if n < 62 then (48 + n - 52) as Byte
    else if n == 62 then 45
    else 95
  }

  function Value(c: Byte): Option<Sextet> {
    if 65 <= c <= 90 then Some(c as int - 65)
    else if 97 <= c <= 122 then Some(c as int - 97 + 26)
    else if 48 <= c <= 57 then Some(c as int - 48 + 52)
    else if c == 45 then Some(62)
    else if c == 95 then Some(63)
    else None
  }

  lemma ValueOfSymbol(n: Sextet)
    ensures Value(Symbol(n)) == Some(n)
    ensures Symbol(n) != DOT
  {
  }

  /** Three bytes make four symbols; one or two bytes left over make two or three, filled with zero bits. */
  function Encode(s: Text): Text {
    if s == [] then []
    else
      var a := s[0] as int;
      if |s| == 1 then [Symbol(a / 4), Symbol(a % 4 * 16)]
      else
        var b := s[1] as int;
        if |s| == 2 then [Symbol(a / 4), Symbol(a % 4 * 16 + b / 16), Symbol(b % 16 * 4)]
        else
          var c := s[2] as int;
          [Symbol(a / 4), Symbol(a % 4 * 16 + b / 16), Symbol(b % 16 * 4 + c / 64), Symbol(c % 64)] + Encode(s[3..])
  }

  function Byte0(a: Sextet, b: Sextet): Byte {
    (a * 4 + b / 16) as Byte
  }

  function Byte1(b: Sextet, c: Sextet): Byte {
    (b % 16 * 16 + c / 4) as Byte
  }

  function Byte2(c: Sextet, d: Sextet): Byte {
    (c % 4 * 64 + d) as Byte
  }

  /** Anything outside the alphabet, a lone last symbol, or leftover bits that are not zero are errors. */
  function Decode(t: Text): Option<Text> {
    if t == [] then Some([])
    else if |t| == 1 then None
    else
      var a, b := Value(t[0]), Value(t[1]);
      if a.None? || b.None? then None
      else if |t| == 2 then
        if b.value % 16 == 0 then Some([Byte0(a.value, b.value)]) else None
      else
        var c := Value(t[2]);
        if c.None? then None
        else if |t| == 3 then
          if c.value % 4 == 0 then Some([Byte0(a.value, b.value), Byte1(b.value, c.value)]) else None
        else
          var d, rest := Value(t[3]), Decode(t[4..]);
          if d.None? || rest.None? then None
          else Some([Byte0(a.value, b.value), Byte1(b.value, c.value), Byte2(c.value, d.value)] + rest.value)
  }

  /** The symbols are the capital letters, the small ones, the digits, the dash and the underscore, in that order. */
  lemma SymbolsAreTheAlphabet(n: Sextet)
    ensures var upper, lower, digits := "ABCDEFGHIJKLMNOPQRSTUVWXYZ", "abcdefghijklmnopqrstuvwxyz", "0123456789";
      Symbol(n) as int ==
        (if n < 26 then upper[n] else if n < 52 then lower[n - 26] else if n < 62 then digits[n - 52] else if n == 62 then '-' else '_') as int
  {
  }

  /** A last group of one byte is two symbols, filled up with zero bits. */
  lemma OneByte(a: Byte) returns (w: Sextet, x: Sextet)
    ensures Encode([a]) == [Symbol(w), Symbol(x)] && 64 * w + x == 16 * a as int
  {
    w, x := a as int / 4, a as int % 4 * 16;
  }

  /** A last group of two bytes is three symbols, filled up with zero bits. */
  lemma TwoBytes(a: Byte, b: Byte) returns (w: Sextet, x: Sextet, y: Sextet)
    ensures Encode([a, b]) == [Symbol(w), Symbol(x), Symbol(y)] && 64 * (64 * w + x) + y == 4 * (256 * a as int + b as int)
  {
    var i, j := a as int, b as int;
    BitsAddUp(i, j, 0);
    w, x, y := i / 4, i % 4 * 16 + j / 16, j % 16 * 4;
    assert Encode([a, b]) == [Symbol(w), Symbol(x), Symbol(y)];
  }

  /** Any other group of four symbols holds the bits of three bytes, high ones first. */
  lemma ThreeBytes(a: Byte, b: Byte, c: Byte, rest: Text) returns (w: Sextet, x: Sextet, y: Sextet, z: Sextet)
    ensures Encode([a, b, c] + rest) == [Symbol(w), Symbol(x), Symbol(y), Symbol(z)] + Encode(rest)
    ensures 64 * (64 * (64 * w + x) + y) + z == 256 * (256 * a as int + b as int) + c as int
  {
    var i, j, k := a as int, b as int, c as int;
    BitsAddUp(i, j, k);
    w, x, y, z := i / 4, i % 4 * 16 + j / 16, j % 16 * 4 + k / 64, k % 64;
    assert ([a, b, c] + rest)[3..] == rest;
  }

  lemma BitsAddUp(i: int, j: int, k: int)
    requires 0 <= i < 256 && 0 <= j < 256 && 0 <= k < 256
    ensures 0 <= i / 4 < 64 && 0 <= i % 4 * 16 + j / 16 < 64 && 0 <= j % 16 * 4 + k / 64 < 64 && 0 <= k % 64 < 64
    ensures 64 * (64 * (64 * (i / 4) + (i % 4 * 16 + j / 16)) + (j % 16 * 4 + k / 64)) + k % 64 == 256 * (256 * i + j) + k
  {
    assert i == 4 * (i / 4) + i % 4 && j == 16 * (j / 16) + j % 16 && k == 64 * (k / 64) + k % 64;
  }

  /** Decoding undoes encoding, so no two texts encode alike. */
  lemma {:induction false} DecodeEncode(s: Text)
    ensures Decode(Encode(s)) == Some(s)
  {
    if |s| == 1 {
      assert s == [s[0]];
    } else if |s| == 2 {
      DecodeTwo(s[0], s[1]);
      assert s == [s[0], s[1]];
    } else if |s| >= 3 {
      DecodeEncode(s[3..]);
      DecodeThree(s[0], s[1], s[2], s[3..]);
      assert s == [s[0], s[1], s[2]] + s[3..];
    }
  }

  lemma DecodeTwo(a: Byte, b: Byte)
    ensures Decode(Encode([a, b])) == Some([a, b])
  {
    var i, j := a as int, b as int;
    Bits0(i, j);
    Bits1(i, j, 0);
    var w, x, y := i / 4, i % 4 * 16 + j / 16, j % 16 * 4;
    assert Encode([a, b]) == [Symbol(w), Symbol(x), Symbol(y)];
    assert y + 0 / 64 == y;
    DecodeLastThree(w, x, y);
  }

  lemma DecodeLastThree(w: Sextet, x: Sextet, y: Sextet)
    requires y % 4 == 0
    ensures Decode([Symbol(w), Symbol(x), Symbol(y)]) == Some([Byte0(w, x), Byte1(x, y)])
  {
    ValueOfSymbol(w);
    ValueOfSymbol(x);
    ValueOfSymbol(y);
  }

  lemma DecodeThree(a: Byte, b: Byte, c: Byte, rest: Text)
    requires Decode(Encode(rest)) == Some(rest)
    ensures Decode(Encode([a, b, c] + rest)) == Some([a, b, c] + rest)
  {
    var i, j, k := a as int, b as int, c as int;
    Bits0(i, j);
    Bits1(i, j, k);
    Bits2(j, k);
    var w, x, y, z := i / 4, i % 4 * 16 + j / 16, j % 16 * 4 + k / 64, k % 64;
    assert ([a, b, c] + rest)[3..] == rest;
    assert Encode([a, b, c] + rest) == [Symbol(w), Symbol(x), Symbol(y), Symbol(z)] + Encode(rest);
    DecodeFour(w, x, y, z, Encode(rest), rest);
  }

  lemma DecodeFour(w: Sextet, x: Sextet, y: Sextet, z: Sextet, tail: Text, rest: Text)
    requires Decode(tail) == Some(rest)
    ensures Decode([Symbol(w), Symbol(x), Symbol(y), Symbol(z)] + tail) == Some([Byte0(w, x), Byte1(x, y), Byte2(y, z)] + rest)
  {
    var t := [Symbol(w), Symbol(x), Symbol(y), Symbol(z)] + tail;
    assert t[4..] == tail;
    ValueOfSymbol(w);
    ValueOfSymbol(x);
    ValueOfSymbol(y);
    ValueOfSymbol(z);
  }

  lemma Bits0(a: int, b: int)
    requires 0 <= a < 256 && 0 <= b < 256
    ensures 0 <= a / 4 < 64 && 0 <= a % 4 * 16 + b / 16 < 64
    ensures Byte0(a / 4, a % 4 * 16 + b / 16) as int == a
    ensures (a % 4 * 16) % 16 == 0
  {
  }

  lemma Bits1(a: int, b: int, c: int)
    requires 0 <= a < 256 && 0 <= b < 256 && 0 <= c < 256
    ensures 0 <= a % 4 * 16 + b / 16 < 64 && 0 <= b % 16 * 4 + c / 64 < 64
    ensures Byte1(a % 4 * 16 + b / 16, b % 16 * 4 + c / 64) as int == b
    ensures (b % 16 * 4) % 4 == 0
  {
  }

  lemma Bits2(b: int, c: int)
    requires 0 <= b < 256 && 0 <= c < 256
    ensures 0 <= b % 16 * 4 + c / 64 < 64 && 0 <= c % 64 < 64
    ensures Byte2(b % 16 * 4 + c / 64, c % 64) as int == c
  {
  }

  lemma SymbolOfValue(c: Byte)
    ensures Value(c).Some? ==> Symbol(Value(c).value) == c
  {
  }

  lemma SextetsBack(a: Sextet, b: Sextet, c: Sextet, d: Sextet)
    ensures var x, y, z := Byte0(a, b) as int, Byte1(b, c) as int, Byte2(c, d) as int;
      && x / 4 == a && x % 4 == b / 16 && y / 16 == b % 16 && y % 16 == c / 4 && z / 64 == c % 4 && z % 64 == d
      && x % 4 * 16 + y / 16 == b && y % 16 * 4 + z / 64 == c
  {
  }

  lemma EncodeOne(a: Sextet, b: Sextet)
    requires b % 16 == 0
    ensures Encode([Byte0(a, b)]) == [Symbol(a), Symbol(b)]
  {
    SextetsBack(a, b, 0, 0);
    assert b == b / 16 * 16;
  }

  lemma EncodeTwo(a: Sextet, b: Sextet, c: Sextet)
    requires c % 4 == 0
    ensures Encode([Byte0(a, b), Byte1(b, c)]) == [Symbol(a), Symbol(b), Symbol(c)]
  {
    SextetsBack(a, b, c, 0);
    assert c == c / 4 * 4;
  }

  lemma EncodeThree(a: Sextet, b: Sextet, c: Sextet, d: Sextet, rest: Text)
    ensures Encode([Byte0(a, b), Byte1(b, c), Byte2(c, d)] + rest) == [Symbol(a), Symbol(b), Symbol(c), Symbol(d)] + Encode(rest)
  {
    SextetsBack(a, b, c, d);
    assert ([Byte0(a, b), Byte1(b, c), Byte2(c, d)] + rest)[3..] == rest;
  }

  /** What decodes is the encoding of what it decodes to: a text has one encoding, and nothing else is read as it. */
  lemma {:induction false} EncodeDecode(t: Text)
    ensures Decode(t).Some? ==> Encode(Decode(t).value) == t
  {
    if Decode(t).Some? && t != [] {
      SymbolOfValue(t[0]);
      SymbolOfValue(t[1]);
      var a, b := Value(t[0]).value, Value(t[1]).value;
      if |t| == 2 {
        EncodeOne(a, b);
      } else {
        SymbolOfValue(t[2]);
        var c := Value(t[2]).value;
        if |t| == 3 {
          EncodeTwo(a, b, c);
        } else {
          SymbolOfValue(t[3]);
          var d, rest := Value(t[3]).value, Decode(t[4..]).value;
          EncodeDecode(t[4..]);
          EncodeThree(a, b, c, d, rest);
          assert t == [t[0], t[1], t[2], t[3]] + t[4..];
        }
      }
    }
  }

  lemma {:induction false} EncodeHasNoDot(s: Text)
    ensures DOT !in Encode(s)
  {
    if |s| >= 3 {
      EncodeHasNoDot(s[3..]);
    }
  }
}
