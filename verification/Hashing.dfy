/** An incremental hash, known only by its law, and the text forms of a digest. */
module Hashing {
  import opened Bytes

  datatype Hasher<!H(!new)> = Hasher(init: H, update: (H, Text) -> H, finalize: H -> Text)

  /** `update` feeds on bytes: how they are cut into chunks does not matter, and an empty chunk changes nothing. */
  ghost predicate Lawful<H(!new)>(h: Hasher<H>) {
    forall i: int {:trigger Opened(i)} | Opened(i) ::
      && (forall s: H, a: Text, b: Text {:trigger h.update(h.update(s, a), b)} :: h.update(h.update(s, a), b) == h.update(s, a + b))
      && (forall s: H :: h.update(s, []) == s)
  }

  lemma UpdateAppends<H(!new)>(h: Hasher<H>, a: Text, b: Text)
    requires Lawful(h)
    ensures h.update(h.update(h.init, a), b) == h.update(h.init, a + b)
    ensures h.update(h.init, []) == h.init
  {
    assert Opened(0);
  }

  function Digest<H(!new)>(h: Hasher<H>, body: Text): Text {
    h.finalize(h.update(h.init, body))
  }

  function Concat(pieces: seq<Text>): Text {
    if pieces == [] then [] else pieces[0] + Concat(pieces[1..])
  }

  lemma {:induction false} ConcatSnoc(pieces: seq<Text>, last: Text)
    ensures Concat(pieces + [last]) == Concat(pieces) + last
  {
    if pieces == [] {
      assert Concat([last]) == last + Concat([]);
    } else {
      assert (pieces + [last])[1..] == pieces[1..] + [last];
      ConcatSnoc(pieces[1..], last);
    }
  }

  /** Every piece stands behind the ones before it. */
  lemma {:induction false} ConcatInOrder(pieces: seq<Text>, i: nat)
    requires i < |pieces|
    ensures Concat(pieces) == Concat(pieces[..i]) + pieces[i] + Concat(pieces[i + 1..])
  {
    if i > 0 {
      ConcatInOrder(pieces[1..], i - 1);
      assert pieces[..i][1..] == pieces[1..][..i - 1] && pieces[1..][i - 1 + 1..] == pieces[i + 1..];
    }
  }

  function HexDigit(n: int): Byte
    requires 0 <= n < 16
  {
    if n < 10 then (48 + n) as Byte else (97 + n - 10) as Byte
  }

  /** Two lower-case digits for each byte. */
  function Hex(s: Text): Text {
    if s == [] then []
    else [HexDigit(s[0] as int / 16), HexDigit(s[0] as int % 16)] + Hex(s[1..])
  }

  /** `t` spells the bytes of `s` in lower-case hexadecimal, two digits a byte. */
  ghost predicate SpellsHex(t: Text, s: Text) {
    var digits := "0123456789abcdef";
    |t| == 2 * |s| && forall i | 0 <= i < |s| :: t[2 * i] as int == digits[s[i] as int / 16] as int && t[2 * i + 1] as int == digits[s[i] as int % 16] as int
  }

  lemma HexDigitSpells(n: int)
    requires 0 <= n < 16
    ensures HexDigit(n) as int == "0123456789abcdef"[n] as int
  {
  }

  lemma {:induction false} HexSpells(s: Text)
    ensures SpellsHex(Hex(s), s)
  {
    if s != [] {
      HexSpells(s[1..]);
      var h, rest := Hex(s), Hex(s[1..]);
      HexDigitSpells(s[0] as int / 16);
      HexDigitSpells(s[0] as int % 16);
      forall i | 0 <= i < |s|
        ensures h[2 * i] as int == "0123456789abcdef"[s[i] as int / 16] as int && h[2 * i + 1] as int == "0123456789abcdef"[s[i] as int % 16] as int
      {
        if i > 0 {
          assert s[i] == s[1..][i - 1] && h[2 * i] == rest[2 * (i - 1)] && h[2 * i + 1] == rest[2 * (i - 1) + 1];
        }
      }
    }
  }

  lemma {:induction false} HexLength(s: Text)
    ensures |Hex(s)| == 2 * |s|
  {
    if s != [] {
      HexLength(s[1..]);
    }
  }

  /** Hexadecimal text gives its bytes back. */
  lemma {:induction false} HexIsInjective(a: Text, b: Text)
    requires Hex(a) == Hex(b)
    ensures a == b
  {
    HexLength(a);
    HexLength(b);
    if a != [] {
      assert Hex(a)[2..] == Hex(a[1..]) && Hex(b)[2..] == Hex(b[1..]);
      HexIsInjective(a[1..], b[1..]);
      assert Hex(a)[0] == Hex(b)[0] && Hex(a)[1] == Hex(b)[1];
      assert a == [a[0]] + a[1..] && b == [b[0]] + b[1..];
    }
  }

  lemma {:induction false} HexHasNoDash(s: Text)
    ensures DASH !in Hex(s)
  {
    if s != [] {
      HexHasNoDash(s[1..]);
    }
  }
}
