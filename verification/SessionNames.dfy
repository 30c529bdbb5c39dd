/** The file names a data root is made of, and what the upload scanner reads back from them. */
module SessionNames {
  import opened Bytes
  import opened Utf8
  import opened Base64Url

  predicate IsAscii(s: string) {
    forall i | 0 <= i < |s| :: s[i] < 128 as char
  }

  /** A string literal as bytes. */
  function Ascii(s: string): (t: Text)
    requires IsAscii(s)
    ensures |t| == |s| && forall i | 0 <= i < |s| :: t[i] as int == s[i] as int
  {
    seq(|s|, i requires 0 <= i < |s| => s[i] as int as Byte)
  }

  predicate IsLowerHexDigit(c: Byte) {
    48 <= c <= 57 || 97 <= c <= 102
  }

  /** An upload id in the hyphenated lower-case form it is printed in. */
  predicate IsUuid(u: Text) {
    |u| == 36 && forall i | 0 <= i < 36 :: if i == 8 || i == 13 || i == 18 || i == 23 then u[i] == DASH else IsLowerHexDigit(u[i])
  }

  function Decimal(n: nat): Text {
    if n < 10 then [(48 + n) as Byte] else Decimal(n / 10) + [(48 + n % 10) as Byte]
  }

  /** The number a text of decimal digits stands for. */
  function DigitsValue(t: Text): nat
    requires IsDigits(t)
  {
    if t == [] then 0 else 10 * DigitsValue(t[..|t| - 1]) + (t[|t| - 1] as int - '0' as int)
  }

  predicate IsDigits(t: Text) {
    forall i | 0 <= i < |t| :: '0' as int <= t[i] as int <= '9' as int
  }

  /** A number is written in decimal digits without leading zeros. */
  lemma {:induction false} DecimalIsNumeral(n: nat)
    ensures var t := Decimal(n); t != [] && IsDigits(t) && DigitsValue(t) == n && (|t| > 1 ==> t[0] as int != '0' as int)
  {
    if n >= 10 {
      DecimalIsNumeral(n / 10);
      var t, front := Decimal(n), Decimal(n / 10);
      assert t[..|t| - 1] == front;
      if |front| == 1 {
        assert DigitsValue(front) == 10 * DigitsValue(front[..0]) + (front[0] as int - '0' as int);
      }
    } else {
      assert Decimal(n)[..0] == [];
    }
  }

  lemma {:induction false} DecimalIsInjective(a: nat, b: nat)
    ensures Decimal(a) == Decimal(b) ==> a == b
  {
    if Decimal(a) == Decimal(b) {
      assert Decimal(a)[|Decimal(a)| - 1] == Decimal(b)[|Decimal(b)| - 1];
      if a >= 10 && b >= 10 {
        assert Decimal(a)[..|Decimal(a)| - 1] == Decimal(a / 10);
        assert Decimal(b)[..|Decimal(b)| - 1] == Decimal(b / 10);
        DecimalIsInjective(a / 10, b / 10);
      }
    }
  }

  // ---- The names: pieces joined with dots, the first piece empty ----

  function Dotted(pieces: seq<Text>): Text {
    Join([[]] + pieces, DOT)
  }

  /** `.upload-{uuid}.json` */
  function MarkerName(u: Text): Text {
    Dotted([Ascii("upload-") + u, Ascii("json")])
  }

  /** `.upload_id-{uuid}.part-{n}` */
  function PartName(u: Text, n: nat): Text {
    Dotted([Ascii("upload_id-") + u, Ascii("part-") + Decimal(n)])
  }

  function MetadataPieces(bucket: Text, key: Text, uploadId: Option<Text>): seq<Text> {
    [Ascii("bucket-") + Encode(bucket), Ascii("object-") + Encode(key)]
    + (if uploadId.Some? then [Ascii("upload-") + uploadId.value] else [])
    + [Ascii("metadata"), Ascii("json")]
  }

  /** `.bucket-{b64}.object-{b64}[.upload-{uuid}].metadata.json` */
  function MetadataName(bucket: Text, key: Text, uploadId: Option<Text>): Text {
    Dotted(MetadataPieces(bucket, key, uploadId))
  }

  /** `.bucket-{b64}.object-{b64}.internal.json` */
  function InternalInfoName(bucket: Text, key: Text): Text {
    Dotted([Ascii("bucket-") + Encode(bucket), Ascii("object-") + Encode(key), Ascii("internal"), Ascii("json")])
  }

  // ---- The scanner ----

  function StripPrefix(s: Text, prefix: Text): Option<Text> {
    if prefix <= s then Some(s[|prefix|..]) else None
  }

  predicate EndsWith(s: Text, suffix: Text) {
    |suffix| <= |s| && s[|s| - |suffix|..] == suffix
  }

  function StripSuffix(s: Text, suffix: Text): Option<Text> {
    if EndsWith(s, suffix) then Some(s[..|s| - |suffix|]) else None
  }

  function DecodeName(s: Text): Option<Text> {
    var b := Decode(s);
    if b.Some? && IsUtf8(b.value) then b else None
  }

  function ParseMarker(name: Text): Option<Text> {
    var rest := StripPrefix(name, Ascii(".upload-"));
    if rest.Some? then StripSuffix(rest.value, Ascii(".json")) else None
  }

  datatype Session = Session(uploadId: Text, bucket: Text, key: Text)

  function ParseSidecar(name: Text): Option<Session> {
    if !(Ascii(".bucket-") <= name && EndsWith(name, Ascii(".metadata.json"))) then None
    else
      var parts := Split(name, DOT);
      if |parts| != 6 then None
      else
        var b := StripPrefix(parts[1], Ascii("bucket-"));
        var k := StripPrefix(parts[2], Ascii("object-"));
        var u := StripPrefix(parts[3], Ascii("upload-"));
        if b.None? || k.None? || u.None? then None
        else
          var bucket, key := DecodeName(b.value), DecodeName(k.value);
          if bucket.None? || key.None? then None
          else Some(Session(u.value, bucket.value, key.value))
  }

  // ---- Names round-trip ----

  ghost predicate NoDots(pieces: seq<Text>) {
    forall p | p in pieces :: DOT !in p
  }

  lemma DottedSplits(pieces: seq<Text>)
    requires NoDots(pieces)
    ensures Split(Dotted(pieces), DOT) == [[]] + pieces
  {
    SplitJoin([[]] + pieces, DOT);
  }

  lemma DottedIsInjective(a: seq<Text>, b: seq<Text>)
    requires NoDots(a) && NoDots(b) && Dotted(a) == Dotted(b)
    ensures a == b
  {
    DottedSplits(a);
    DottedSplits(b);
    assert a == ([[]] + a)[1..] && b == ([[]] + b)[1..];
  }

  /** A dot and a dotless text begin a name exactly when the text begins its first piece. */
  lemma DottedStartsWith(x: Text, pieces: seq<Text>)
    requires DOT !in x && pieces != []
    ensures x <= pieces[0] ==> [DOT] + x <= Dotted(pieces)
    ensures [DOT] + x <= Dotted(pieces) ==> x <= pieces[0]
  {
    var rest, first := Join(pieces, DOT), pieces[0];
    JoinCons([], pieces);
    assert Dotted(pieces) == [DOT] + rest;
    assert Dotted(pieces)[1..] == rest && ([DOT] + x)[1..] == x;
    assert [DOT] + x <= Dotted(pieces) <==> x <= rest;
    if |x| <= |first| {
      assert rest[..|x|] == first[..|x|];
    } else if |pieces| > 1 {
      assert rest == first + [DOT] + Join(pieces[1..], DOT);
      assert rest[|first|] == DOT && x[|first|] in x;
      assert x[|first|] != rest[|first|];
    }
  }

  lemma DottedEndsWith(front: seq<Text>, a: Text, b: Text)
    requires front != []
    ensures EndsWith(Dotted(front + [a, b]), [DOT] + a + [DOT] + b)
  {
    var p := [[]] + front;
    JoinSnoc(p, a, DOT);
    JoinSnoc(p + [a], b, DOT);
    assert [[]] + (front + [a, b]) == p + [a] + [b];
  }

  lemma MetadataHasNoDots(bucket: Text, key: Text, uploadId: Option<Text>)
    requires uploadId.Some? ==> DOT !in uploadId.value
    ensures NoDots(MetadataPieces(bucket, key, uploadId))
  {
    EncodeHasNoDot(bucket);
    EncodeHasNoDot(key);
  }

  /** The name of a metadata sidecar tells bucket, key and upload id apart from all others. */
  lemma MetadataNameIsInjective(b: Text, k: Text, u: Option<Text>, b': Text, k': Text, u': Option<Text>)
    requires (u.Some? ==> IsUuid(u.value)) && (u'.Some? ==> IsUuid(u'.value))
    requires MetadataName(b, k, u) == MetadataName(b', k', u')
    ensures b == b' && k == k' && u == u'
  {
    MetadataHasNoDots(b, k, u);
    MetadataHasNoDots(b', k', u');
    var p, q := MetadataPieces(b, k, u), MetadataPieces(b', k', u');
    DottedIsInjective(p, q);
    assert |p| == |q|;
    assert p[0] == q[0] && p[1] == q[1];
    CommonStart(Ascii("bucket-"), Encode(b), Encode(b'));
    CommonStart(Ascii("object-"), Encode(k), Encode(k'));
    EncodeIsInjective(b, b');
    EncodeIsInjective(k, k');
    if u.Some? {
      assert p[2] == Ascii("upload-") + u.value && q[2] == Ascii("upload-") + u'.value;
      CommonStart(Ascii("upload-"), u.value, u'.value);
    }
  }

  lemma EncodeIsInjective(x: Text, y: Text)
    ensures Encode(x) == Encode(y) ==> x == y
  {
    DecodeEncode(x);
    DecodeEncode(y);
  }

  lemma CommonStart(start: Text, x: Text, y: Text)
    ensures start + x == start + y ==> x == y
  {
    assert (start + x)[|start|..] == x && (start + y)[|start|..] == y;
  }

  /** The scanner reads the very session back from an upload's sidecar. */
  lemma ScannerReadsSidecar(bucket: Text, key: Text, u: Text)
    requires IsUtf8(bucket) && IsUtf8(key) && DOT !in u
    ensures ParseSidecar(MetadataName(bucket, key, Some(u))) == Some(Session(u, bucket, key))
  {
    var pieces := MetadataPieces(bucket, key, Some(u));
    MetadataHasNoDots(bucket, key, Some(u));
    DottedSplits(pieces);
    DecodeEncode(bucket);
    DecodeEncode(key);
    SidecarShape(bucket, key, Some(u));
    var parts := [[]] + pieces;
    assert parts[1] == Ascii("bucket-") + Encode(bucket);
    assert parts[2] == Ascii("object-") + Encode(key);
    assert parts[3] == Ascii("upload-") + u;
  }

  /** Nothing but an upload's sidecar is read as one: the name says bucket, key and upload id, and nothing besides. */
  lemma ScannerReadsIff(name: Text, bucket: Text, key: Text, u: Text)
    ensures ParseSidecar(name) == Some(Session(u, bucket, key)) <==>
      name == MetadataName(bucket, key, Some(u)) && DOT !in u && IsUtf8(bucket) && IsUtf8(key)
  {
    if ParseSidecar(name) == Some(Session(u, bucket, key)) {
      ReadNameIsSidecar(name, bucket, key, u);
    }
    if name == MetadataName(bucket, key, Some(u)) && DOT !in u && IsUtf8(bucket) && IsUtf8(key) {
      ScannerReadsSidecar(bucket, key, u);
    }
  }

  lemma ReadNameIsSidecar(name: Text, bucket: Text, key: Text, u: Text)
    requires ParseSidecar(name) == Some(Session(u, bucket, key))
    ensures name == MetadataName(bucket, key, Some(u)) && DOT !in u && IsUtf8(bucket) && IsUtf8(key)
  {
    MiddlePieces(name, Split(name, DOT), bucket, key, u);
    PiecesMakeName(name, Split(name, DOT), bucket, key, u);
  }

  lemma PiecesMakeName(name: Text, parts: seq<Text>, bucket: Text, key: Text, u: Text)
    requires parts == Split(name, DOT) && |parts| == 6 && Ascii(".bucket-") <= name && EndsWith(name, Ascii(".metadata.json"))
    requires parts[1] == Ascii("bucket-") + Encode(bucket) && parts[2] == Ascii("object-") + Encode(key) && parts[3] == Ascii("upload-") + u
    ensures name == MetadataName(bucket, key, Some(u)) && DOT !in u
  {
    JoinSplit(name, DOT);
    FirstPieceIsEmpty(name, parts);
    LastPieces(name, parts);
    SixPieces(parts);
    DotlessEnd(Ascii("upload-"), u, parts[3]);
  }

  lemma SixPieces(parts: seq<Text>)
    requires |parts| == 6 && parts[0] == []
    ensures parts == [[]] + ([parts[1], parts[2]] + [parts[3]] + [parts[4], parts[5]])
  {
  }

  lemma DotlessEnd(front: Text, end: Text, whole: Text)
    requires whole == front + end && DOT !in whole
    ensures DOT !in end
  {
  }

  lemma MiddlePieces(name: Text, parts: seq<Text>, bucket: Text, key: Text, u: Text)
    requires parts == Split(name, DOT) && ParseSidecar(name) == Some(Session(u, bucket, key))
    ensures |parts| == 6 && parts[1] == Ascii("bucket-") + Encode(bucket) && parts[2] == Ascii("object-") + Encode(key) && parts[3] == Ascii("upload-") + u
    ensures IsUtf8(bucket) && IsUtf8(key)
  {
    var b, k := StripPrefix(parts[1], Ascii("bucket-")), StripPrefix(parts[2], Ascii("object-"));
    Stripped(parts[1], Ascii("bucket-"));
    Stripped(parts[2], Ascii("object-"));
    Stripped(parts[3], Ascii("upload-"));
    DecodedName(b.value);
    DecodedName(k.value);
  }

  lemma Stripped(s: Text, prefix: Text)
    ensures StripPrefix(s, prefix).Some? ==> s == prefix + StripPrefix(s, prefix).value
  {
  }

  lemma DecodedName(s: Text)
    ensures DecodeName(s).Some? ==> IsUtf8(DecodeName(s).value) && Encode(DecodeName(s).value) == s
  {
    EncodeDecode(s);
  }

  lemma FirstPieceIsEmpty(name: Text, parts: seq<Text>)
    requires parts == Split(name, DOT) && Ascii(".bucket-") <= name
    ensures parts[0] == []
  {
    assert name[0] == Ascii(".bucket-")[0] == DOT;
  }

  lemma LastPieces(name: Text, parts: seq<Text>)
    requires parts == Split(name, DOT) && EndsWith(name, Ascii(".metadata.json"))
    ensures |parts| >= 3 && parts[|parts| - 2] == Ascii("metadata") && parts[|parts| - 1] == Ascii("json")
  {
    MetadataSuffix();
    TwoLastPieces(name[..|name| - |Ascii(".metadata.json")|], Ascii("metadata"), Ascii("json"));
    assert name == name[..|name| - |Ascii(".metadata.json")|] + Ascii(".metadata.json");
  }

  lemma TwoLastPieces(front: Text, a: Text, b: Text)
    requires DOT !in a && DOT !in b
    ensures var parts := Split(front + ([DOT] + a + [DOT] + b), DOT);
      |parts| >= 3 && parts[|parts| - 2] == a && parts[|parts| - 1] == b
  {
    var tail := a + [DOT] + b;
    assert [DOT] + a + [DOT] + b == [] + [DOT] + tail;
    SplitPiece([], DOT, tail);
    SplitPiece(a, DOT, b);
    SplitPiece(b, DOT, []);
    SplitConcat(front, [DOT] + a + [DOT] + b, DOT);
  }

  /** An object's own metadata sidecar is not taken for an upload's. */
  lemma ScannerIgnoresPlainSidecar(bucket: Text, key: Text)
    ensures ParseSidecar(MetadataName(bucket, key, None)) == None
  {
    MetadataHasNoDots(bucket, key, None);
    DottedSplits(MetadataPieces(bucket, key, None));
  }

  lemma ScannerIgnoresInfo(bucket: Text, key: Text)
    ensures ParseSidecar(InternalInfoName(bucket, key)) == None
  {
    InfoHasNoDots(bucket, key);
    DottedSplits([Ascii("bucket-") + Encode(bucket), Ascii("object-") + Encode(key), Ascii("internal"), Ascii("json")]);
  }

  lemma SidecarShape(bucket: Text, key: Text, uploadId: Option<Text>)
    ensures Ascii(".bucket-") <= MetadataName(bucket, key, uploadId)
    ensures EndsWith(MetadataName(bucket, key, uploadId), Ascii(".metadata.json"))
  {
    SidecarStart(bucket, key, uploadId);
    SidecarEnd(bucket, key, uploadId);
  }

  lemma SidecarStart(bucket: Text, key: Text, uploadId: Option<Text>)
    ensures Ascii(".bucket-") <= MetadataName(bucket, key, uploadId)
  {
    var pieces := MetadataPieces(bucket, key, uploadId);
    DotBefore("bucket-");
    DottedStartsWith(Ascii("bucket-"), pieces);
  }

  lemma SidecarEnd(bucket: Text, key: Text, uploadId: Option<Text>)
    ensures EndsWith(MetadataName(bucket, key, uploadId), Ascii(".metadata.json"))
  {
    var pieces := MetadataPieces(bucket, key, uploadId);
    var front := pieces[..|pieces| - 2];
    assert pieces == front + [Ascii("metadata"), Ascii("json")];
    MetadataSuffix();
    DottedEndsWith(front, Ascii("metadata"), Ascii("json"));
  }

  lemma DotBefore(s: string)
    requires IsAscii(s)
    ensures Ascii("." + s) == [DOT] + Ascii(s)
  {
  }

  lemma MetadataSuffix()
    ensures Ascii(".metadata.json") == [DOT] + Ascii("metadata") + [DOT] + Ascii("json")
  {
  }

  lemma ScannerReadsMarker(u: Text)
    ensures ParseMarker(MarkerName(u)) == Some(u)
  {
    var first, json := Ascii("upload-") + u, Ascii("json");
    DottedFirst(first, [json]);
    assert [first] + [json] == [first, json];
    DotBefore("upload-");
    DotBefore("json");
    assert "." + "upload-" == ".upload-" && "." + "json" == ".json";
    MarkerParses(u, MarkerName(u));
  }

  /** Nothing but a session's marker is read as one. */
  lemma MarkerIff(name: Text, u: Text)
    ensures ParseMarker(name) == Some(u) <==> name == MarkerName(u)
  {
    ScannerReadsMarker(u);
    MarkerSpelled(u);
    if ParseMarker(name) == Some(u) {
      Stripped(name, Ascii(".upload-"));
      StrippedEnd(StripPrefix(name, Ascii(".upload-")).value, Ascii(".json"));
    }
  }

  lemma StrippedEnd(s: Text, suffix: Text)
    ensures StripSuffix(s, suffix).Some? ==> s == StripSuffix(s, suffix).value + suffix
  {
  }

  lemma MarkerSpelled(u: Text)
    ensures MarkerName(u) == Ascii(".upload-") + (u + Ascii(".json"))
  {
    var first, json := Ascii("upload-") + u, Ascii("json");
    DottedFirst(first, [json]);
    assert [first] + [json] == [first, json];
    DotBefore("upload-");
    DotBefore("json");
    assert "." + "upload-" == ".upload-" && "." + "json" == ".json";
    DotsMove(Ascii("upload-"), u, json);
  }

  lemma DotsMove(a: Text, u: Text, b: Text)
    ensures [DOT] + (a + u) + [DOT] + b == ([DOT] + a) + (u + ([DOT] + b))
  {
  }

  lemma MarkerParses(u: Text, name: Text)
    requires name == [DOT] + (Ascii("upload-") + u) + [DOT] + Ascii("json")
    requires Ascii(".upload-") == [DOT] + Ascii("upload-") && Ascii(".json") == [DOT] + Ascii("json")
    ensures ParseMarker(name) == Some(u)
  {
    var rest := u + Ascii(".json");
    assert name == Ascii(".upload-") + rest;
    assert name[|Ascii(".upload-")|..] == rest;
    assert rest[|u|..] == Ascii(".json") && rest[..|u|] == u;
  }

  lemma JoinCons(head: Text, tail: seq<Text>)
    requires tail != []
    ensures Join([head] + tail, DOT) == head + [DOT] + Join(tail, DOT)
  {
  }

  lemma DottedFirst(first: Text, rest: seq<Text>)
    requires rest != []
    ensures Dotted([first] + rest) == [DOT] + first + [DOT] + Join(rest, DOT)
  {
    JoinCons(first, rest);
    JoinCons([], [first] + rest);
    assert [] + [DOT] + (first + [DOT] + Join(rest, DOT)) == [DOT] + first + [DOT] + Join(rest, DOT);
  }

  // ---- Which names can be mistaken for which ----

  /** `.tmp.{n}.internal.part` */
  function TmpName(n: nat): Text {
    Dotted([Ascii("tmp"), Decimal(n), Ascii("internal"), Ascii("part")])
  }

  lemma {:induction false} DecimalHasNoDot(n: nat)
    ensures DOT !in Decimal(n)
  {
    if n >= 10 {
      DecimalHasNoDot(n / 10);
    }
  }

  lemma PartHasNoDots(u: Text, n: nat)
    requires IsUuid(u)
    ensures NoDots([Ascii("upload_id-") + u, Ascii("part-") + Decimal(n)])
  {
    DecimalHasNoDot(n);
  }

  lemma PartNameIsInjective(u: Text, n: nat, u': Text, n': nat)
    requires IsUuid(u) && IsUuid(u') && PartName(u, n) == PartName(u', n')
    ensures u == u' && n == n'
  {
    PartHasNoDots(u, n);
    PartHasNoDots(u', n');
    var p, q := [Ascii("upload_id-") + u, Ascii("part-") + Decimal(n)], [Ascii("upload_id-") + u', Ascii("part-") + Decimal(n')];
    DottedIsInjective(p, q);
    assert p[0] == q[0] && p[1] == q[1];
    CommonStart(Ascii("upload_id-"), u, u');
    CommonStart(Ascii("part-"), Decimal(n), Decimal(n'));
    DecimalIsInjective(n, n');
  }

  lemma TmpNameIsInjective(n: nat, n': nat)
    requires TmpName(n) == TmpName(n')
    ensures n == n'
  {
    DecimalHasNoDot(n);
    DecimalHasNoDot(n');
    var p := [Ascii("tmp"), Decimal(n), Ascii("internal"), Ascii("part")];
    var q := [Ascii("tmp"), Decimal(n'), Ascii("internal"), Ascii("part")];
    assert NoDots(p) && NoDots(q);
    DottedIsInjective(p, q);
    assert p[1] == q[1];
    DecimalIsInjective(n, n');
  }

  /** The kinds of file a data root holds, by the start of their names. */
  datatype Kind = MarkerKind | PartKind | SidecarKind | TmpKind

  function KindOf(name: Text): Option<Kind> {
    if Ascii(".upload-") <= name then Some(MarkerKind)
    else if Ascii(".upload_id-") <= name then Some(PartKind)
    else if Ascii(".bucket-") <= name then Some(SidecarKind)
    else if Ascii(".tmp") <= name then Some(TmpKind)
    else None
  }

  lemma PrefixedPiece(start: string, rest: Text, more: seq<Text>)
    requires IsAscii(start) && forall i | 0 <= i < |start| :: start[i] != '.'
    ensures Ascii("." + start) <= Dotted([Ascii(start) + rest] + more)
  {
    var t := Ascii(start);
    forall i | 0 <= i < |t| ensures t[i] != DOT {
      assert start[i] != '.';
    }
    assert DOT !in t;
    DotBefore(start);
    DottedStartsWith(t, [t + rest] + more);
  }

  lemma MarkerKindOf(u: Text)
    ensures KindOf(MarkerName(u)) == Some(MarkerKind)
  {
    PrefixedPiece("upload-", u, [Ascii("json")]);
    assert "." + "upload-" == ".upload-";
    assert [Ascii("upload-") + u] + [Ascii("json")] == [Ascii("upload-") + u, Ascii("json")];
  }

  lemma PartKindOf(u: Text, n: nat)
    ensures KindOf(PartName(u, n)) == Some(PartKind)
  {
    PartStart(u, n);
    PartsPrefixKind(u, PartName(u, n));
  }

  lemma SidecarKindOf(bucket: Text, key: Text, uploadId: Option<Text>)
    ensures KindOf(MetadataName(bucket, key, uploadId)) == Some(SidecarKind)
    ensures KindOf(InternalInfoName(bucket, key)) == Some(SidecarKind)
  {
    var pieces := MetadataPieces(bucket, key, uploadId);
    assert pieces == [pieces[0]] + pieces[1..];
    PrefixedPiece("bucket-", Encode(bucket), pieces[1..]);
    var info := [Ascii("object-") + Encode(key), Ascii("internal"), Ascii("json")];
    assert [Ascii("bucket-") + Encode(bucket)] + info == [Ascii("bucket-") + Encode(bucket), Ascii("object-") + Encode(key), Ascii("internal"), Ascii("json")];
    PrefixedPiece("bucket-", Encode(bucket), info);
    assert "." + "bucket-" == ".bucket-";
    SecondByte(MetadataName(bucket, key, uploadId), ".bucket-");
    SecondByte(InternalInfoName(bucket, key), ".bucket-");
  }

  lemma TmpKindOf(n: nat)
    ensures KindOf(TmpName(n)) == Some(TmpKind)
  {
    var rest := [Decimal(n), Ascii("internal"), Ascii("part")];
    assert Ascii("tmp") + [] == Ascii("tmp");
    assert [Ascii("tmp")] + rest == [Ascii("tmp"), Decimal(n), Ascii("internal"), Ascii("part")];
    PrefixedPiece("tmp", [], rest);
    assert "." + "tmp" == ".tmp";
    SecondByte(TmpName(n), ".tmp");
  }

  lemma SecondByte(name: Text, start: string)
    requires IsAscii(start) && |start| > 1 && Ascii(start) <= name
    ensures name[1] as int == start[1] as int
  {
  }

  // ---- One name for each file ----

  datatype FileId =
    | MarkerFile(upload: Text)
    | PartFile(upload: Text, number: nat)
    | SidecarFile(bucket: Text, key: Text, session: Option<Text>)
    | InfoFile(bucket: Text, key: Text)
    | TmpFile(counter: nat)
  {
    predicate Valid() {
      match this
      case MarkerFile(u) => IsUuid(u)
      case PartFile(u, _) => IsUuid(u)
      case SidecarFile(_, _, u) => u.Some? ==> IsUuid(u.value)
      case _ => true
    }
  }

  function NameOf(id: FileId): Text {
    match id
    case MarkerFile(u) => MarkerName(u)
    case PartFile(u, n) => PartName(u, n)
    case SidecarFile(b, k, u) => MetadataName(b, k, u)
    case InfoFile(b, k) => InternalInfoName(b, k)
    case TmpFile(n) => TmpName(n)
  }

  function KindOfId(id: FileId): Kind {
    match id
    case MarkerFile(_) => MarkerKind
    case PartFile(_, _) => PartKind
    case SidecarFile(_, _, _) => SidecarKind
    case InfoFile(_, _) => SidecarKind
    case TmpFile(_) => TmpKind
  }

  lemma NameTellsKind(id: FileId)
    ensures KindOf(NameOf(id)) == Some(KindOfId(id))
  {
    match id
    case MarkerFile(u) => MarkerKindOf(u);
    case PartFile(u, n) => PartKindOf(u, n);
    case SidecarFile(b, k, u) => SidecarKindOf(b, k, u);
    case InfoFile(b, k) => SidecarKindOf(b, k, None);
    case TmpFile(n) => TmpKindOf(n);
  }

  lemma MarkerNameIsInjective(u: Text, u': Text)
    requires MarkerName(u) == MarkerName(u')
    ensures u == u'
  {
    ScannerReadsMarker(u);
    ScannerReadsMarker(u');
  }

  lemma InfoHasNoDots(bucket: Text, key: Text)
    ensures NoDots([Ascii("bucket-") + Encode(bucket), Ascii("object-") + Encode(key), Ascii("internal"), Ascii("json")])
  {
    EncodeHasNoDot(bucket);
    EncodeHasNoDot(key);
  }

  lemma InternalInfoNameIsInjective(b: Text, k: Text, b': Text, k': Text)
    requires InternalInfoName(b, k) == InternalInfoName(b', k')
    ensures b == b' && k == k'
  {
    InfoHasNoDots(b, k);
    InfoHasNoDots(b', k');
    var p := [Ascii("bucket-") + Encode(b), Ascii("object-") + Encode(k), Ascii("internal"), Ascii("json")];
    var q := [Ascii("bucket-") + Encode(b'), Ascii("object-") + Encode(k'), Ascii("internal"), Ascii("json")];
    DottedIsInjective(p, q);
    assert p[0] == q[0] && p[1] == q[1];
    CommonStart(Ascii("bucket-"), Encode(b), Encode(b'));
    CommonStart(Ascii("object-"), Encode(k), Encode(k'));
    EncodeIsInjective(b, b');
    EncodeIsInjective(k, k');
  }

  lemma SidecarIsNotInfo(b: Text, k: Text, u: Option<Text>, b': Text, k': Text)
    requires u.Some? ==> IsUuid(u.value)
    ensures MetadataName(b, k, u) != InternalInfoName(b', k')
  {
    MetadataHasNoDots(b, k, u);
    InfoHasNoDots(b', k');
    var p := MetadataPieces(b, k, u);
    var q := [Ascii("bucket-") + Encode(b'), Ascii("object-") + Encode(k'), Ascii("internal"), Ascii("json")];
    DottedSplits(p);
    DottedSplits(q);
    assert p[|p| - 2] == Ascii("metadata") && q[|q| - 2] == Ascii("internal");
    assert Ascii("metadata")[0] as int == 'm' as int && Ascii("internal")[0] as int == 'i' as int;
    assert p != q;
    assert ([[]] + p)[1..] == p && ([[]] + q)[1..] == q;
  }

  /** No two files of a data root share a name. */
  lemma NameOfIsInjective(a: FileId, b: FileId)
    requires a.Valid() && b.Valid()
    ensures NameOf(a) == NameOf(b) ==> a == b
  {
    if NameOf(a) == NameOf(b) {
      NameTellsKind(a);
      NameTellsKind(b);
      match a
      case MarkerFile(u) => MarkerNameIsInjective(u, b.upload);
      case PartFile(u, n) => PartNameIsInjective(u, n, b.upload, b.number);
      case SidecarFile(bucket, key, u) =>
        if b.InfoFile? {
          SidecarIsNotInfo(bucket, key, u, b.bucket, b.key);
        } else {
          MetadataNameIsInjective(bucket, key, u, b.bucket, b.key, b.session);
        }
      case InfoFile(bucket, key) =>
        if b.SidecarFile? {
          SidecarIsNotInfo(b.bucket, b.key, b.session, bucket, key);
        } else {
          InternalInfoNameIsInjective(bucket, key, b.bucket, b.key);
        }
      case TmpFile(n) => TmpNameIsInjective(n, b.counter);
    }
  }

  function PartsPrefix(u: Text): Text {
    Ascii(".upload_id-") + u
  }

  /** What an abort takes for the parts of an upload are the parts of that very upload. */
  lemma PartsPrefixFindsParts(u: Text, id: FileId)
    requires IsUuid(u) && id.Valid()
    ensures PartsPrefix(u) <= NameOf(id) <==> id.PartFile? && id.upload == u
  {
    var name := NameOf(id);
    NameTellsKind(id);
    if id.PartFile? {
      var start := Ascii(".upload_id-");
      PartStart(id.upload, id.number);
      assert name[..|start| + 36] == start + id.upload;
      CommonStart(start, u, id.upload);
      assert |PartsPrefix(u)| == |start| + 36;
    } else {
      PartsPrefixKind(u, name);
    }
  }

  lemma PartsPrefixKind(u: Text, name: Text)
    ensures PartsPrefix(u) <= name ==> KindOf(name) == Some(PartKind)
  {
    if PartsPrefix(u) <= name {
      assert name[..|Ascii(".upload_id-")|] == Ascii(".upload_id-");
      assert name[7] == Ascii(".upload_id-")[7];
      assert Ascii(".upload-")[7] as int == '-' as int && Ascii(".upload_id-")[7] as int == '_' as int;
    }
  }

  lemma PartStart(u: Text, n: nat)
    ensures Ascii(".upload_id-") + u <= PartName(u, n)
  {
    var first, second := Ascii("upload_id-") + u, Ascii("part-") + Decimal(n);
    DottedFirst(first, [second]);
    assert [first] + [second] == [first, second];
    DotBefore("upload_id-");
    assert "." + "upload_id-" == ".upload_id-";
    assert [DOT] + first == Ascii(".upload_id-") + u;
  }
}
