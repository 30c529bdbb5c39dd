/** Byte strings: the order a sorted map of object keys uses, and substring search. */
module Bytes {

  datatype Option<+T> = None | Some(value: T)

  newtype Byte = x: int | 0 <= x < 256

  type Text = seq<Byte>

  const SLASH: Byte := 47
  const DOT: Byte := 46
  const DASH: Byte := 45

  /** Bytewise lexicographic order. */
  predicate Less(a: Text, b: Text) {
    b != [] && (a == [] || a[0] < b[0] || (a[0] == b[0] && Less(a[1..], b[1..])))
  }

  lemma {:induction false} LessIrreflexive(a: Text)
    ensures !Less(a, a)
  {
    if a != [] {
      LessIrreflexive(a[1..]);
    }
  }

  lemma {:induction false} LessTransitive(a: Text, b: Text, c: Text)
    requires Less(a, b) && Less(b, c)
    ensures Less(a, c)
  {
    if a != [] && a[0] == b[0] == c[0] {
      LessTransitive(a[1..], b[1..], c[1..]);
    }
  }

  lemma {:induction false} LessTotal(a: Text, b: Text)
    ensures a == b || Less(a, b) || Less(b, a)
  {
    if a != [] && b != [] && a[0] == b[0] {
      LessTotal(a[1..], b[1..]);
      assert a == [a[0]] + a[1..] && b == [b[0]] + b[1..];
    }
  }

  /** A text is less when it is the other's beginning, or its byte is the smaller one where they first differ. */
  lemma {:induction false} LessIff(a: Text, b: Text)
    ensures Less(a, b) <==> a < b || exists i | 0 <= i < |a| && i < |b| :: a[..i] == b[..i] && a[i] < b[i]
  {
    if a != [] && b != [] && a[0] == b[0] {
      LessIff(a[1..], b[1..]);
      if i :| 0 <= i < |a| && i < |b| && a[..i] == b[..i] && a[i] < b[i] {
        assert a[1..][..i - 1] == a[..i][1..] && b[1..][..i - 1] == b[..i][1..];
        assert a[1..][i - 1] < b[1..][i - 1];
      }
      if i :| 0 <= i < |a| - 1 && i < |b| - 1 && a[1..][..i] == b[1..][..i] && a[1..][i] < b[1..][i] {
        assert a[..i + 1] == [a[0]] + a[1..][..i] && b[..i + 1] == [b[0]] + b[1..][..i];
        assert a[i + 1] < b[i + 1];
      }
    } else if a != [] && b != [] && a[0] < b[0] {
      assert a[..0] == b[..0];
    }
  }

  /** Always true. A definition behind `Opened` is used only where a proof asks for it by name. */
  ghost predicate Opened(i: int) {
    true
  }

  /** A strict total order on keys. */
  ghost predicate StrictOrder<K(!new)>(less: (K, K) -> bool) {
    forall i: int {:trigger Opened(i)} | Opened(i) :: IsStrictOrder(less)
  }

  ghost predicate IsStrictOrder<K(!new)>(less: (K, K) -> bool) {
    && (forall a :: !less(a, a))
    && (forall a, b, c {:trigger less(a, b), less(b, c)} :: less(a, b) && less(b, c) ==> less(a, c))
    && (forall a, b {:trigger less(a, b)} {:trigger less(b, a)} :: a == b || less(a, b) || less(b, a))
  }

  lemma LessIsStrictOrder()
    ensures StrictOrder(Less)
  {
    forall a: Text ensures !Less(a, a) {
      LessIrreflexive(a);
    }
    forall a: Text, b: Text, c: Text | Less(a, b) && Less(b, c) ensures Less(a, c) {
      LessTransitive(a, b, c);
    }
    forall a: Text, b: Text ensures a == b || Less(a, b) || Less(b, a) {
      LessTotal(a, b);
    }
  }

  /** Offset of the first occurrence of `needle`; the empty needle occurs at 0. */
  function Find(s: Text, needle: Text): (pos: Option<nat>)
    ensures pos.Some? ==> pos.value + |needle| <= |s| && s[pos.value..][..|needle|] == needle
    ensures pos.Some? ==> forall i | 0 <= i < pos.value :: !(needle <= s[i..])
    ensures pos.None? ==> forall i | 0 <= i <= |s| :: !(needle <= s[i..])
  {
    if needle <= s then
      assert s[0..] == s;
      Some(0)
    else if s == [] then
      assert s[0..] == s;
      None
    else
      var rest := Find(s[1..], needle);
      assert s[0..] == s;
      assert forall i | 1 <= i <= |s| :: s[i..] == s[1..][i - 1..];
      match rest
      case None => None
      case Some(p) => Some(p + 1)
  }

  /** Text appended behind a first occurrence does not move it. */
  lemma {:induction false} FindInExtension(s: Text, more: Text, needle: Text)
    requires Find(s, needle).Some?
    ensures Find(s + more, needle) == Find(s, needle)
  {
    assert |needle| <= |s|;
    assert (s + more)[..|needle|] == s[..|needle|];
    if !(needle <= s) {
      assert (s + more)[1..] == s[1..] + more;
      FindInExtension(s[1..], more, needle);
    }
  }

  /** `s` without the leading bytes that `strip` picks. */
  function TrimStart(s: Text, strip: Byte -> bool): Text {
    if s != [] && strip(s[0]) then TrimStart(s[1..], strip) else s
  }

  /** The pieces of `s` between occurrences of `sep`; always at least one piece. */
  function Split(s: Text, sep: Byte): (parts: seq<Text>)
    ensures parts != []
    ensures forall p | p in parts :: sep !in p
  {
    if s == [] then [[]]
    else
      var rest := Split(s[1..], sep);
      if s[0] == sep then [[]] + rest
      else [[s[0]] + rest[0]] + rest[1..]
  }

  function Join(parts: seq<Text>, sep: Byte): Text {
    if parts == [] then []
    else if |parts| == 1 then parts[0]
    else parts[0] + [sep] + Join(parts[1..], sep)
  }

  lemma {:induction false} SplitPiece(piece: Text, sep: Byte, tail: Text)
    requires sep !in piece
    ensures Split(piece, sep) == [piece]
    ensures Split(piece + [sep] + tail, sep) == [piece] + Split(tail, sep)
  {
    if piece == [] {
      assert piece + [sep] + tail == [sep] + tail;
      assert ([sep] + tail)[1..] == tail;
    } else {
      var whole := piece + [sep] + tail;
      assert whole[1..] == piece[1..] + [sep] + tail;
      SplitPiece(piece[1..], sep, tail);
      assert [whole[0]] + piece[1..] == piece;
    }
  }

  /** Splitting undoes joining whenever no piece contains the separator. */
  lemma {:induction false} SplitJoin(parts: seq<Text>, sep: Byte)
    requires parts != [] && forall p | p in parts :: sep !in p
    ensures Split(Join(parts, sep), sep) == parts
  {
    if |parts| == 1 {
      SplitPiece(parts[0], sep, []);
    } else {
      SplitJoin(parts[1..], sep);
      SplitPiece(parts[0], sep, Join(parts[1..], sep));
    }
  }

  /** Joining undoes splitting. */
  lemma {:induction false} JoinSplit(s: Text, sep: Byte)
    ensures Join(Split(s, sep), sep) == s
  {
    if s != [] {
      var rest := Split(s[1..], sep);
      JoinSplit(s[1..], sep);
      assert s == [s[0]] + s[1..];
      if s[0] == sep {
        assert ([[]] + rest)[1..] == rest;
      } else {
        JoinPrepend(s[0], rest, sep);
      }
    }
  }

  lemma JoinPrepend(c: Byte, parts: seq<Text>, sep: Byte)
    requires parts != []
    ensures Join([[c] + parts[0]] + parts[1..], sep) == [c] + Join(parts, sep)
  {
    assert ([[c] + parts[0]] + parts[1..])[1..] == parts[1..];
    if |parts| > 1 {
      assert [c] + (parts[0] + [sep] + Join(parts[1..], sep)) == [c] + parts[0] + [sep] + Join(parts[1..], sep);
    }
  }

  /** Where two texts meet, the last piece of the one and the first of the other become one. */
  lemma {:induction false} SplitConcat(a: Text, b: Text, sep: Byte)
    ensures Split(a + b, sep) == Merged(Split(a, sep), Split(b, sep))
  {
    if a == [] {
      assert a + b == b;
      assert [] + Split(b, sep)[0] == Split(b, sep)[0];
    } else {
      assert (a + b)[1..] == a[1..] + b;
      SplitConcat(a[1..], b, sep);
      var rest, y := Split(a[1..], sep), Split(b, sep);
      if a[0] == sep {
        assert Merged([[]] + rest, y) == [[]] + Merged(rest, y);
      } else {
        MergedPrepend(a[0], rest, y);
      }
    }
  }

  function Merged(x: seq<Text>, y: seq<Text>): (r: seq<Text>)
    requires x != [] && y != []
    ensures |r| == |x| + |y| - 1
  {
    x[..|x| - 1] + [x[|x| - 1] + y[0]] + y[1..]
  }

  lemma MergedPrepend(c: Byte, x: seq<Text>, y: seq<Text>)
    requires x != [] && y != []
    ensures Merged([[c] + x[0]] + x[1..], y) == [[c] + Merged(x, y)[0]] + Merged(x, y)[1..]
  {
    if |x| == 1 {
      assert [c] + x[0] + y[0] == [c] + (x[0] + y[0]);
    } else {
      assert ([[c] + x[0]] + x[1..])[..|x| - 1] == [[c] + x[0]] + x[1..|x| - 1];
    }
  }

  lemma {:induction false} JoinSnoc(parts: seq<Text>, last: Text, sep: Byte)
    ensures Join(parts + [last], sep) == if parts == [] then last else Join(parts, sep) + [sep] + last
  {
    if |parts| == 1 {
      assert (parts + [last])[1..] == [last];
    } else if |parts| > 1 {
      assert (parts + [last])[1..] == parts[1..] + [last];
      JoinSnoc(parts[1..], last, sep);
    }
  }

  /** Everything joined behind a proper prefix starts with that prefix and a separator. */
  lemma {:induction false} JoinPrefix(front: seq<Text>, parts: seq<Text>, sep: Byte)
    requires front != [] && front <= parts && |front| < |parts|
    ensures Join(front, sep) + [sep] <= Join(parts, sep)
  {
    if |front| > 1 {
      JoinPrefix(front[1..], parts[1..], sep);
    }
  }
}
