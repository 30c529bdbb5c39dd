/** Which delimiters can make one key both an object and a common prefix. */
module Delimiters {
  import opened Bytes
  import opened Utf8
  import opened Tree
  import opened Walk

  /** Every piece of the delimiter that lies between two of its slashes is a name, so that some path holds it. */
  predicate CanOccur(d: Text) {
    forall i | 0 < i < |Split(d, SLASH)| - 1 :: ValidName(Split(d, SLASH)[i])
  }

  /** A single byte; a slash for the first or the second byte; or a delimiter no path can hold. */
  predicate Separates(d: Text) {
    |d| <= 1 || d[0] == SLASH || d[1] == SLASH || !CanOccur(d)
  }

  // ---- Delimiters that separate ----

  lemma InnerPieceOccurs(a: Text, d: Text, b: Text, i: nat)
    requires 0 < i < |Split(d, SLASH)| - 1
    ensures Split(d, SLASH)[i] in Split(a + d + b, SLASH)
  {
    SplitConcat(d, b, SLASH);
    SplitConcat(a, d + b, SLASH);
    assert a + d + b == a + (d + b);
    var x, y := Split(a, SLASH), Split(d + b, SLASH);
    assert y[i] == Split(d, SLASH)[i];
    assert Split(a + (d + b), SLASH)[|x| - 1 + i] == y[i];
  }

  lemma CutAround(s: Text, pos: nat, d: Text)
    requires pos + |d| <= |s| && s[pos..][..|d|] == d
    ensures s == s[..pos] + d + s[pos + |d|..]
  {
    assert s[pos..pos + |d|] == d;
  }

  /** The delimiter in a key, with what is before and behind it. */
  lemma Surroundings(key: Text, prefix: Text, d: Text, at: nat)
    requires prefix <= key && |prefix| + at + |d| <= |key| && key[|prefix|..][at..][..|d|] == d
    ensures var pos := |prefix| + at;
      key[pos..pos + |d|] == d && key == key[..pos] + d + key[pos + |d|..]
  {
    assert key[|prefix|..][at..] == key[|prefix| + at..];
    CutAround(key, |prefix| + at, d);
  }

  lemma NoPathHolds(p: Path, prefix: Text, d: Text)
    requires ValidPath(p) && !CanOccur(d) && prefix <= KeyOf(p)
    ensures Find(KeyOf(p)[|prefix|..], d).None?
  {
    var key := KeyOf(p);
    if Find(key[|prefix|..], d).Some? {
      var at := Find(key[|prefix|..], d).value;
      var pos := |prefix| + at;
      Surroundings(key, prefix, d, at);
      var i :| 0 < i < |Split(d, SLASH)| - 1 && !ValidName(Split(d, SLASH)[i]);
      InnerPieceOccurs(key[..pos], d, key[pos + |d|..], i);
      PathOfKey(p);
    }
  }

  lemma KeyEndsInName(p: Path)
    requires ValidPath(p)
    ensures KeyOf(p) != [] && KeyOf(p)[|KeyOf(p)| - 1] != SLASH
  {
    var front, last := p[..|p| - 1], p[|p| - 1];
    assert p == front + [last];
    JoinSnoc(front, last, SLASH);
    assert last in p && last[|last| - 1] in last;
    assert KeyOf(p)[|KeyOf(p)| - |last|..] == last;
  }

  /** What starts with the key of a path and a slash lies below that path. */
  lemma KeyAboveIsPathAbove(p: Path, q: Path)
    requires ValidPath(p) && ValidPath(q) && KeyOf(p) + [SLASH] <= KeyOf(q)
    ensures Below(q, p)
  {
    var rest := KeyOf(q)[|KeyOf(p)| + 1..];
    assert KeyOf(q) == (KeyOf(p) + [SLASH]) + rest;
    PathOfKey(p);
    PathOfKey(q);
    SplitConcat(KeyOf(p), [SLASH] + rest, SLASH);
    assert KeyOf(q) == KeyOf(p) + ([SLASH] + rest);
    assert ([SLASH] + rest)[1..] == rest;
    var y := Split([SLASH] + rest, SLASH);
    assert y == [[]] + Split(rest, SLASH);
    assert p[|p| - 1] + [] == p[|p| - 1];
    assert p[..|p| - 1] + [p[|p| - 1] + []] == p;
    assert q == p + Split(rest, SLASH);
  }

  lemma GroupEndsAt(key: Text, prefix: Text, d: Text, at: nat)
    requires prefix <= key && |prefix| + at + |d| <= |key| && key[|prefix|..][at..][..|d|] == d && |d| >= 2
    ensures var group := prefix + key[|prefix|..][..at + 1];
      group != [] && group[|group| - 1] == d[0] && group + [d[1]] <= key
  {
    var pos := |prefix| + at;
    Surroundings(key, prefix, d, at);
    assert key[pos..pos + |d|][0] == key[pos] && key[pos..pos + |d|][1] == key[pos + 1];
    assert prefix + key[|prefix|..][..at + 1] == key[..pos + 1];
    assert key[..pos + 1] + [key[pos + 1]] == key[..pos + 2];
  }

  /** The group ends where the delimiter's first byte is; its second byte comes next in the key. */
  lemma GroupEnds(scope: Scope, key: Text)
    requires scope.Valid() && scope.Grouped(key) && |scope.delimiter.value| >= 2
    ensures var d, group := scope.delimiter.value, scope.GroupOf(key);
      group != [] && group[|group| - 1] == d[0] && group + [d[1]] <= key
  {
    GroupEndsAt(key, scope.prefix, scope.delimiter.value, Find(key[|scope.prefix|..], scope.delimiter.value).value);
  }

  /** A separating delimiter never folds a file's key into a prefix that is itself a file's key. */
  lemma GroupIsNoFile(t: Bucket, scope: Scope, p: Path, q: Path)
    requires t.WellFormed() && scope.Valid() && scope.delimiter.Some? && |scope.delimiter.value| >= 2 && Separates(scope.delimiter.value)
    requires p in t.files && q in t.files
    ensures scope.Grouped(KeyOf(q)) ==> scope.GroupOf(KeyOf(q)) != KeyOf(p)
  {
    var d := scope.delimiter.value;
    assert p in t.files.Keys + t.dirs && q in t.files.Keys + t.dirs;
    KeyEndsInName(p);
    if !CanOccur(d) && scope.prefix <= KeyOf(q) {
      NoPathHolds(q, scope.prefix, d);
    } else if scope.Grouped(KeyOf(q)) {
      GroupEnds(scope, KeyOf(q));
      if d[0] != SLASH {
        NoFileAboveFile(t, p, q);
      }
    }
  }

  lemma NoFileAboveFile(t: Bucket, p: Path, q: Path)
    requires t.WellFormed() && p in t.files && q in t.files
    ensures !(KeyOf(p) + [SLASH] <= KeyOf(q))
  {
    assert p in t.files.Keys + t.dirs && q in t.files.Keys + t.dirs;
    if KeyOf(p) + [SLASH] <= KeyOf(q) {
      KeyAboveIsPathAbove(p, q);
      AncestorsAreDirectories(t, q, p);
    }
  }

  // ---- Delimiters that do not ----

  /** A byte for names that the delimiter does not begin with. */
  function Letter(d: Text): Byte {
    if d != [] && d[0] == 120 then 121 else 120
  }

  /** The short key of the pair that collides: a letter and the delimiter's first byte. */
  function ShortKey(d: Text): Text
    requires d != []
  {
    [Letter(d), d[0]]
  }

  /** The long one holds the whole delimiter behind the letter. */
  function LongKey(d: Text): Text {
    [Letter(d)] + d + [Letter(d)]
  }

  /** Two files, with the directories above the second. */
  function Pair(short: Text, long: Path, info: FileInfo): Bucket {
    Tree(map[[short] := info, long := info], set n | 1 <= n < |long| :: long[..n])
  }

  function CollidingBucket(d: Text, info: FileInfo): Bucket
    requires d != []
  {
    Pair(ShortKey(d), PathOf(LongKey(d)), info)
  }

  /** The pieces of the long key: the delimiter's, with the letter at either end. */
  lemma LongPieces(d: Text)
    requires d != []
    ensures var x, pieces, long := Letter(d), Split(d, SLASH), PathOf(LongKey(d));
      && |long| == |pieces|
      && (forall i | 0 < i < |pieces| - 1 :: long[i] == pieces[i])
      && x in long[0] && x in long[|long| - 1]
      && [x] <= long[0] && (d[0] != SLASH ==> [x, d[0]] <= long[0])
      && (|d| >= 2 && d[0] != SLASH && d[1] != SLASH ==> |long[0]| > 2)
  {
    var x, pieces := Letter(d), Split(d, SLASH);
    SplitPiece([x], SLASH, []);
    SplitConcat([x], d, SLASH);
    SplitConcat([x] + d, [x], SLASH);
    var front := Split([x] + d, SLASH);
    assert front == [[x] + pieces[0]] + pieces[1..];
    assert PathOf(LongKey(d)) == front[..|front| - 1] + [front[|front| - 1] + [x]];
  }

  lemma LongPathIsValid(d: Text)
    requires d != [] && CanOccur(d)
    ensures ValidPath(PathOf(LongKey(d)))
  {
    var long, x := PathOf(LongKey(d)), Letter(d);
    LongPieces(d);
    forall i | 0 <= i < |long| ensures ValidName(long[i]) {
      assert i == 0 || i == |long| - 1 ==> x in long[i];
    }
  }

  lemma BothAreVisible(d: Text)
    requires IsUtf8(d) && d != [] && d[0] < 0x80
    ensures Visible(PathOf(LongKey(d))) && Visible([ShortKey(d)])
  {
    var x := Letter(d);
    AsciiIsUtf8([x]);
    AsciiIsUtf8(ShortKey(d));
    ConcatIsUtf8([x], d);
    ConcatIsUtf8([x] + d, [x]);
    SplitIsUtf8(LongKey(d));
  }

  lemma PairIsWellFormed(short: Text, long: Path, info: FileInfo)
    requires ValidName(short) && ValidPath(long) && long[0] != short
    ensures Pair(short, long, info).WellFormed()
  {
    var t := Pair(short, long, info);
    forall p | p in t.files.Keys + t.dirs ensures ValidPath(p) && t.IsDirectory(Parent(p)) {
      if p != [short] {
        var n :| 1 <= n <= |long| && p == long[..n];
        assert Parent(p) == long[..n - 1];
      }
    }
    forall p | p in t.dirs ensures p !in t.files {
      var n :| 1 <= n < |long| && p == long[..n];
      assert p[0] == long[0] && |p| < |long|;
    }
  }

  /** The delimiter's first byte alone goes into the prefix, which is then the short key. */
  lemma LongKeyFoldsIntoShort(d: Text)
    requires |d| >= 2
    ensures var scope := Scope([], Some(d));
      scope.Standalone(ShortKey(d)) && scope.Grouped(LongKey(d)) && scope.GroupOf(LongKey(d)) == ShortKey(d)
  {
    var short, long := ShortKey(d), LongKey(d);
    assert short[0..] == short && long[0..] == long;
    assert long[1..] == d + [Letter(d)] && d <= long[1..];
    assert Find(long, d) == Some(1);
    assert long[..2] == short;
  }

  /** Two files, one listed under its own key and one folded into that key, are listed under it alone. */
  lemma PairListing(short: Text, long: Path, info: FileInfo, scope: Scope)
    requires scope.Valid() && !scope.BySlash() && Visible([short]) && Visible(long)
    requires scope.Standalone(short) && scope.Grouped(KeyOf(long)) && scope.GroupOf(KeyOf(long)) == short
    ensures ObjectKeys(Pair(short, long, info), scope) == {short}
    ensures PrefixKeys(Pair(short, long, info), scope) == {short}
  {
    var t := Pair(short, long, info);
    assert KeyOf([short]) == short;
    assert [short] in t.files && long in t.files;
    assert forall p | p in t.files :: p == [short] || p == long;
    assert !scope.Grouped(short) && !scope.Standalone(KeyOf(long));
  }

  /** Any other delimiter with an ASCII first byte makes some bucket list one key, and only that, both as an object and as a common prefix. */
  lemma LongDelimiterCollides(d: Text, info: FileInfo)
    requires IsUtf8(d) && !Separates(d) && d[0] < 0x80
    ensures var t, scope := CollidingBucket(d, info), Scope([], Some(d));
      && t.WellFormed() && scope.Valid()
      && ObjectKeys(t, scope) == {ShortKey(d)} && PrefixKeys(t, scope) == {ShortKey(d)}
  {
    LongPieces(d);
    LongPathIsValid(d);
    PairIsWellFormed(ShortKey(d), PathOf(LongKey(d)), info);
    BothAreVisible(d);
    LongKeyFoldsIntoShort(d);
    JoinSplit(LongKey(d), SLASH);
    PairListing(ShortKey(d), PathOf(LongKey(d)), info, Scope([], Some(d)));
  }

  // ---- Exactly which ones do ----

  lemma GroupHoldsDelimiter(scope: Scope, key: Text)
    requires scope.Valid() && scope.Grouped(key) && |scope.delimiter.value| == 1
    ensures !scope.Standalone(scope.GroupOf(key))
  {
    var rest, d := key[|scope.prefix|..], scope.delimiter.value;
    var pos := Find(rest, d).value;
    var group := scope.GroupOf(key);
    assert group[|scope.prefix|..] == rest[..pos + 1];
    assert rest[..pos + 1][pos..] == [rest[pos]] == d by {
      assert rest[pos..][..1] == [rest[pos]];
    }
  }

  /** Without a delimiter, or with one that separates, no object key of any bucket is also a common prefix. */
  lemma ObjectsAndPrefixesDisjoint(t: Bucket, scope: Scope)
    requires t.WellFormed() && scope.Valid() && (scope.delimiter.Some? ==> Separates(scope.delimiter.value))
    ensures ObjectKeys(t, scope) !! PrefixKeys(t, scope)
  {
    forall p, q | p in t.files && q in t.files && scope.Standalone(KeyOf(p)) && scope.Grouped(KeyOf(q)) ensures scope.GroupOf(KeyOf(q)) != KeyOf(p) {
      if |scope.delimiter.value| == 1 {
        GroupHoldsDelimiter(scope, KeyOf(q));
      } else {
        GroupIsNoFile(t, scope, p, q);
      }
    }
    forall p, q | p in t.files && q in t.dirs && scope.BySlash() && scope.Standalone(KeyOf(p)) && scope.Grouped(KeyOf(q) + [SLASH])
      ensures scope.GroupOf(KeyOf(q) + [SLASH]) != KeyOf(p)
    {
      GroupHoldsDelimiter(scope, KeyOf(q) + [SLASH]);
    }
  }

  /** No bucket and prefix make a key both an object and a common prefix. */
  ghost predicate NeverCollides(d: Text)
    requires d != []
  {
    forall t: Bucket, prefix: Text {:trigger ObjectKeys(t, Scope(prefix, Some(d)))} | t.WellFormed() ::
      ObjectKeys(t, Scope(prefix, Some(d))) !! PrefixKeys(t, Scope(prefix, Some(d)))
  }

  /** The delimiters that tell objects and common prefixes apart in every bucket are the separating ones. */
  lemma NeverCollidesIff(d: Text)
    requires IsUtf8(d) && d != [] && d[0] < 0x80
    ensures NeverCollides(d) <==> Separates(d)
  {
    if Separates(d) {
      forall t: Bucket, prefix: Text | t.WellFormed() ensures ObjectKeys(t, Scope(prefix, Some(d))) !! PrefixKeys(t, Scope(prefix, Some(d))) {
        ObjectsAndPrefixesDisjoint(t, Scope(prefix, Some(d)));
      }
    } else {
      var t := CollidingBucket(d, FileInfo(0, 0, None));
      LongDelimiterCollides(d, FileInfo(0, 0, None));
      assert ShortKey(d) in ObjectKeys(t, Scope([], Some(d)));
    }
  }
}
