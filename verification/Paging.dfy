/** Following continuation tokens: what the pages of one listing add up to. */
module Paging {
  import opened Bytes
  import opened KeySets
  import opened Tree
  import opened ListingPages
  import opened Utf8
  import opened Walk
  import opened Delimiters
  import opened Listing

  /** Each page after the first resumes from the token of the page before it. */
  ghost predicate Follows(less: Order, objects: set<Text>, prefixes: set<Text>, marker: Option<Text>, n: nat, pages: seq<Response>)
    requires StrictOrder(less)
    decreases |pages|
  {
    && pages != []
    && IsCut(less, objects, prefixes, marker, n, pages[0])
    && (|pages| > 1 ==>
      && pages[0].nextToken.Some?
      && Follows(less, objects, prefixes, pages[0].nextToken, n, pages[1..]))
  }

  function AllContents(pages: seq<Response>): seq<Object>
    requires forall r | r in pages :: r.Page?
  {
    if pages == [] then [] else pages[0].contents + AllContents(pages[1..])
  }

  function AllPrefixes(pages: seq<Response>): seq<Text>
    requires forall r | r in pages :: r.Page?
  {
    if pages == [] then [] else pages[0].commonPrefixes + AllPrefixes(pages[1..])
  }

  lemma SortedConcat(less: Order, a: set<Text>, b: set<Text>)
    requires StrictOrder(less) && forall x, y | x in a && y in b :: less(x, y)
    ensures Sorted(less, a + b) == Sorted(less, a) + Sorted(less, b)
  {
    SortedIsSorted(less, a);
    SortedIsSorted(less, b);
    var r, s := Sorted(less, a), Sorted(less, b);
    forall i, j | 0 <= i < j < |r + s| ensures less((r + s)[i], (r + s)[j]) {
      if i < |r| <= j {
        assert r[i] in ToSet(r) && s[j - |r|] in ToSet(s);
      }
    }
    forall k ensures k in ToSet(r + s) <==> k in a + b {
      assert k in ToSet(r) <==> k in a;
      assert k in ToSet(s) <==> k in b;
    }
    SortedIsUnique(less, a + b, r + s);
  }

  /** The token parts what has been listed from what is still to come. */
  lemma TokenSplits(less: Order, entries: set<Text>, marker: Option<Text>, n: nat, keys: seq<Text>)
    requires StrictOrder(less) && 1 <= n < |After(less, entries, marker)|
    requires keys == CutAfter(less, entries, marker, n)
    ensures |keys| == n
    ensures
      var rest := After(less, entries, Some(keys[n - 1]));
      && After(less, entries, marker) == ToSet(keys) + rest
      && (forall x, y | x in ToSet(keys) && y in rest :: less(x, y))
      && |rest| == |After(less, entries, marker)| - n
  {
    var all := After(less, entries, marker);
    var r := Sorted(less, all);
    SortedIsSorted(less, all);
    var m := keys[n - 1];
    var rest := After(less, entries, Some(m));
    AscendingSplit(less, r, n);
    assert IsGreatest(less, m, ToSet(keys));
    forall y ensures y in rest <==> y in ToSet(r[n..]) {
      assert Opened(0);
      assert m == r[n - 1] && m in ToSet(r);
      if y in ToSet(r[n..]) {
        var j :| 0 <= j < |r[n..]| && r[n..][j] == y;
        assert r[n + j] == y && y in all;
      }
      assert y in rest ==> y in all && y in ToSet(r);
      assert y in ToSet(keys) ==> y == m || less(y, m);
    }
    forall x, y | x in ToSet(keys) && y in rest ensures less(x, y) {
      assert Opened(0);
      assert less(m, y) && (x == m || less(x, m));
    }
    assert |ToSet(r[n..])| == |r| - n by {
      AscendingHasNoDuplicates(less, r[n..]);
    }
    assert rest == ToSet(r[n..]);
  }

  /** One list of a page, followed by what later pages hold of it, is what was left of it before. */
  lemma PageThenRest(less: Order, part: set<Text>, entries: set<Text>, marker: Option<Text>, keys: seq<Text>, m: Text)
    requires StrictOrder(less) && part <= entries
    requires After(less, entries, marker) == ToSet(keys) + After(less, entries, Some(m))
    requires forall x, y | x in ToSet(keys) && y in After(less, entries, Some(m)) :: less(x, y)
    ensures Sorted(less, After(less, part, marker)) == Sorted(less, ToSet(keys) * part) + Sorted(less, After(less, part, Some(m)))
  {
    var now, later := ToSet(keys) * part, After(less, part, Some(m));
    forall k ensures k in After(less, part, marker) <==> k in now + later {
      assert k in part ==> (k in After(less, part, marker) <==> k in After(less, entries, marker));
      assert k in part ==> (k in later <==> k in After(less, entries, Some(m)));
    }
    assert After(less, part, marker) == now + later;
    SortedConcat(less, now, later);
  }

  lemma PageIsAll(less: Order, part: set<Text>, entries: set<Text>, marker: Option<Text>, n: nat)
    requires StrictOrder(less) && part <= entries && |After(less, entries, marker)| <= n
    ensures ToSet(CutAfter(less, entries, marker, n)) * part == After(less, part, marker)
  {
    var all := After(less, entries, marker);
    SortedIsSorted(less, all);
    assert Sorted(less, all)[..|all|] == Sorted(less, all);
    assert all * part == After(less, part, marker);
  }

  /** A run of pages that ends untruncated lists every entry after the marker, once, in order. */
  lemma {:induction false} PagesListEverything(less: Order, objects: set<Text>, prefixes: set<Text>, marker: Option<Text>, n: nat, pages: seq<Response>)
    requires StrictOrder(less) && n >= 1 && Follows(less, objects, prefixes, marker, n, pages)
    requires pages[|pages| - 1].Page? && !pages[|pages| - 1].isTruncated
    ensures forall r | r in pages :: r.Page?
    ensures Keys(AllContents(pages)) == Sorted(less, After(less, objects, marker))
    ensures AllPrefixes(pages) == Sorted(less, After(less, prefixes, marker))
    decreases |pages|
  {
    var entries := objects + prefixes;
    var first, keys := pages[0], CutAfter(less, entries, marker, n);
    if |pages| == 1 {
      PageIsAll(less, objects, entries, marker, n);
      PageIsAll(less, prefixes, entries, marker, n);
      assert pages == [first];
      assert AllContents(pages) == first.contents && AllPrefixes(pages) == first.commonPrefixes;
    } else {
      var m := first.nextToken.value;
      PagesListEverything(less, objects, prefixes, Some(m), n, pages[1..]);
      assert pages == [first] + pages[1..];
      TokenSplits(less, entries, marker, n, keys);
      PageThenRest(less, objects, entries, marker, keys, m);
      PageThenRest(less, prefixes, entries, marker, keys, m);
    }
  }

  /** Every page but the last is full, so no run of pages goes on for ever. */
  lemma {:induction false} PagesAreBounded(less: Order, objects: set<Text>, prefixes: set<Text>, marker: Option<Text>, n: nat, pages: seq<Response>)
    requires StrictOrder(less) && n >= 1 && Follows(less, objects, prefixes, marker, n, pages)
    ensures |pages| == 1 || (|pages| - 1) * n < |After(less, objects + prefixes, marker)|
    decreases |pages|
  {
    if |pages| > 1 {
      var entries := objects + prefixes;
      var token := pages[0].nextToken;
      TokenSplits(less, entries, marker, n, CutAfter(less, entries, marker, n));
      PagesAreBounded(less, objects, prefixes, token, n, pages[1..]);
      assert (|pages| - 1) * n == (|pages[1..]| - 1) * n + n;
    }
  }

  /**
   * What a client has when it runs out of tokens: the whole listing, if and only if pages
   * hold at least one entry or there is nothing to list. A page of size zero carries no
   * token even when it is truncated, so the client stops with nothing.
   */
  lemma PagingCompleteIff(less: Order, objects: set<Text>, prefixes: set<Text>, marker: Option<Text>, n: nat, pages: seq<Response>)
    requires StrictOrder(less) && Follows(less, objects, prefixes, marker, n, pages)
    requires pages[|pages| - 1].Page? && pages[|pages| - 1].nextToken.None?
    ensures forall r | r in pages :: r.Page?
    ensures
      && Keys(AllContents(pages)) == Sorted(less, After(less, objects, marker))
      && AllPrefixes(pages) == Sorted(less, After(less, prefixes, marker))
      <==>
      n >= 1 || After(less, objects + prefixes, marker) == {}
  {
    var entries := objects + prefixes;
    AfterUnion(less, objects, prefixes, marker);
    if n >= 1 {
      LastPageIsUntruncated(less, objects, prefixes, marker, n, pages);
      PagesListEverything(less, objects, prefixes, marker, n, pages);
    } else {
      assert |pages| == 1 && pages == [pages[0]];
      assert AllContents(pages) == pages[0].contents && AllPrefixes(pages) == pages[0].commonPrefixes;
      assert ToSet(CutAfter(less, entries, marker, n)) * objects == {};
      assert ToSet(CutAfter(less, entries, marker, n)) * prefixes == {};
    }
  }

  /** A truncated page of positive size always carries a token. */
  lemma {:induction false} LastPageIsUntruncated(less: Order, objects: set<Text>, prefixes: set<Text>, marker: Option<Text>, n: nat, pages: seq<Response>)
    requires StrictOrder(less) && n >= 1 && Follows(less, objects, prefixes, marker, n, pages)
    requires pages[|pages| - 1].Page? && pages[|pages| - 1].nextToken.None?
    ensures !pages[|pages| - 1].isTruncated
    decreases |pages|
  {
    if |pages| > 1 {
      LastPageIsUntruncated(less, objects, prefixes, pages[0].nextToken, n, pages[1..]);
    }
  }

  // ---- The same for a bucket ----

  /** Responses of one bucket to a listing and to its continuations. */
  ghost predicate BucketPages(t: Bucket, scope: Scope, marker: Option<Text>, n: nat, pages: seq<Response>)
    requires scope.Valid()
    decreases |pages|
  {
    && pages != []
    && IsPage(t, scope, marker, n, pages[0])
    && (|pages| > 1 ==> pages[0].nextToken.Some? && BucketPages(t, scope, pages[0].nextToken, n, pages[1..]))
  }

  lemma {:induction false} BucketPagesFollow(t: Bucket, scope: Scope, marker: Option<Text>, n: nat, pages: seq<Response>)
    requires StrictOrder(Less) && scope.Valid() && BucketPages(t, scope, marker, n, pages)
    ensures Follows(Less, ObjectKeys(t, scope), PrefixKeys(t, scope), marker, n, pages)
    decreases |pages|
  {
    if |pages| > 1 {
      BucketPagesFollow(t, scope, pages[0].nextToken, n, pages[1..]);
    }
  }

  ghost predicate AsOnDisk(t: Bucket, objs: seq<Object>) {
    forall o | o in objs :: PathOf(o.key) in t.files && o == ObjectAt(t, o.key)
  }

  lemma {:induction false} BucketPagesAsOnDisk(t: Bucket, scope: Scope, marker: Option<Text>, n: nat, pages: seq<Response>)
    requires scope.Valid() && BucketPages(t, scope, marker, n, pages)
    ensures forall r | r in pages :: r.Page?
    ensures AsOnDisk(t, AllContents(pages))
    decreases |pages|
  {
    assert pages == [pages[0]] + pages[1..];
    assert AsOnDisk(t, pages[0].contents);
    if |pages| > 1 {
      BucketPagesAsOnDisk(t, scope, pages[0].nextToken, n, pages[1..]);
    }
  }

  /**
   * Paging is complete: from no marker, the pages a client collects hold every object of the
   * naive listing as it is on disk, and every common prefix, each once and in key order.
   */
  lemma BucketPagingIsComplete(t: Bucket, scope: Scope, n: nat, pages: seq<Response>)
    requires scope.Valid() && n >= 1 && BucketPages(t, scope, None, n, pages)
    requires pages[|pages| - 1].Page? && pages[|pages| - 1].nextToken.None?
    ensures StrictOrder(Less) && forall r | r in pages :: r.Page?
    ensures Keys(AllContents(pages)) == Sorted(Less, ObjectKeys(t, scope))
    ensures AsOnDisk(t, AllContents(pages))
    ensures AllPrefixes(pages) == Sorted(Less, PrefixKeys(t, scope))
    ensures |pages| == 1 || (|pages| - 1) * n < |Entries(t, scope)|
  {
    var none: Option<Text> := None;
    LessIsStrictOrder();
    BucketPagesFollow(t, scope, none, n, pages);
    BucketPagesAsOnDisk(t, scope, none, n, pages);
    var objects, prefixes := ObjectKeys(t, scope), PrefixKeys(t, scope);
    AfterNoMarker(objects);
    AfterNoMarker(prefixes);
    AfterNoMarker(objects + prefixes);
    PagingCompleteIff(Less, objects, prefixes, none, n, pages);
    PagesAreBounded(Less, objects, prefixes, none, n, pages);
  }

  lemma AfterNoMarker(s: set<Text>)
    ensures After(Less, s, None) == s
  {
  }

  // ---- The same for requests ----

  /** What `ListObjectsV2` promises of its answer, where the delimiter keeps objects and common prefixes apart. */
  ghost predicate Answers(t: Bucket, request: Request, r: Response) {
    IsPage(t, request.Scope(), request.ResumeAfter(), request.PageSize(), r)
  }

  /** A request, and the same request again and again with the token of the answer before. */
  ghost predicate RequestPages(t: Bucket, request: Request, pages: seq<Response>)
    decreases |pages|
  {
    && pages != []
    && Answers(t, request, pages[0])
    && (|pages| > 1 ==>
      && pages[0].nextToken.Some?
      && RequestPages(t, request.(continuationToken := pages[0].nextToken), pages[1..]))
  }

  /** A token counts, then `startAfter`, and only without either is the listing begun at the start. */
  lemma {:induction false} RequestPagesAreBucketPages(t: Bucket, request: Request, marker: Option<Text>, pages: seq<Response>)
    requires RequestPages(t, request, pages)
    requires marker == if request.continuationToken.Some? then request.continuationToken else request.startAfter
    ensures BucketPages(t, request.Scope(), marker, request.PageSize(), pages)
    decreases |pages|
  {
    if |pages| > 1 {
      var next := request.(continuationToken := pages[0].nextToken);
      RequestPagesAreBucketPages(t, next, pages[0].nextToken, pages[1..]);
    }
  }

  /** Between the marker of the request and the end of the page nothing is missing; with no marker, from the start. */
  lemma AnswerHasNoGap(t: Bucket, request: Request, r: Response)
    requires Answers(t, request, r)
    ensures HasNoGap(Entries(t, request.Scope()), if request.continuationToken.Some? then request.continuationToken else request.startAfter, r)
  {
    LessIsStrictOrder();
    CutHasNoGap(ObjectKeys(t, request.Scope()), PrefixKeys(t, request.Scope()), request.ResumeAfter(), request.PageSize(), r);
  }

  /** A page holds 1000 entries unless fewer are asked for, and none when a negative number is. */
  lemma PageSizes(request: Request)
    ensures request.maxKeys.None? ==> request.PageSize() == 1000
    ensures request.maxKeys.Some? && request.maxKeys.value < 0 ==> request.PageSize() == 0
    ensures request.maxKeys.Some? && 0 <= request.maxKeys.value <= 1000 ==> request.PageSize() == request.maxKeys.value
    ensures request.maxKeys.Some? && 1000 < request.maxKeys.value ==> request.PageSize() == 1000
  {
  }

  lemma {:induction false} LeadingSlashesDoNotCount(slashes: Text, prefix: Text)
    requires (forall i | 0 <= i < |slashes| :: slashes[i] == SLASH) && (prefix == [] || prefix[0] != SLASH)
    ensures TrimStart(slashes + prefix, c => c == SLASH) == prefix
  {
    if slashes == [] {
      assert slashes + prefix == prefix;
    } else {
      assert (slashes + prefix)[1..] == slashes[1..] + prefix;
      LeadingSlashesDoNotCount(slashes[1..], prefix);
    }
  }

  /** The whole of what a client asked for, in the client's terms. */
  ghost predicate IsWholeListing(t: Bucket, prefix: Text, delimiter: Option<Text>, objs: seq<Object>, prefixes: seq<Text>)
    requires StrictOrder(Less) && (delimiter.Some? ==> delimiter.value != [])
  {
    && Keys(objs) == Sorted(Less, ObjectKeys(t, Scope(prefix, delimiter)))
    && prefixes == Sorted(Less, PrefixKeys(t, Scope(prefix, delimiter)))
    && (forall o | o in objs ::
         PathOf(o.key) in t.files
         && var info := t.files[PathOf(o.key)]; o.size == info.size && o.lastModified == info.lastModified && o.etag == info.etag)
  }

  /**
   * A client that begins without a marker and sends its request again with each token gets the whole listing, in order
   * and as it is on disk: of what is under the prefix, leading slashes aside, grouped by the delimiter, if that is not
   * empty, for any positive size of page. Every page but the last is full.
   */
  lemma RequestPagingIsComplete(t: Bucket, request: Request, slashes: Text, prefix: Text, pages: seq<Response>)
    requires (forall i | 0 <= i < |slashes| :: slashes[i] == SLASH) && (prefix == [] || prefix[0] != SLASH)
    requires if request.prefix.Some? then request.prefix.value == slashes + prefix else prefix == []
    requires request.continuationToken.None? && request.startAfter.None?
    requires request.maxKeys.Some? ==> request.maxKeys.value >= 1
    requires RequestPages(t, request, pages) && pages[|pages| - 1].Page? && pages[|pages| - 1].nextToken.None?
    ensures StrictOrder(Less) && forall r | r in pages :: r.Page?
    ensures IsWholeListing(t, prefix, if request.delimiter == Some([]) then None else request.delimiter, AllContents(pages), AllPrefixes(pages))
    ensures var n := if request.maxKeys.None? || request.maxKeys.value > 1000 then 1000 else request.maxKeys.value;
      |pages| == 1 || (|pages| - 1) * n < |Entries(t, Scope(prefix, if request.delimiter == Some([]) then None else request.delimiter))|
  {
    LeadingSlashesDoNotCount(slashes, prefix);
    PageSizes(request);
    RequestPagesAreBucketPages(t, request, None, pages);
    BucketPagingIsComplete(t, request.Scope(), request.PageSize(), pages);
    assert request.Scope() == Scope(prefix, if request.delimiter == Some([]) then None else request.delimiter);
  }

  // ---- What goes wrong where a key is both an object and a common prefix ----

  lemma OneKey(k: Text, marker: Option<Text>, n: nat)
    requires StrictOrder(Less)
    ensures marker.None? ==> Lookahead(Less, {k}, marker, n) == [k]
    ensures marker == Some(k) ==> Lookahead(Less, {k}, marker, n) == []
  {
    var rest := After(Less, {k}, marker);
    if marker.None? {
      assert rest == {k};
      SmallestSorted(Less, rest, n + 1);
      SortedIsUnique(Less, {k}, [k]);
    } else if marker == Some(k) {
      LessIrreflexive(k);
      assert rest == {};
      SmallestSorted(Less, rest, n + 1);
    }
  }

  /**
   * So a delimiter that does not separate loses an object: its key goes out as a prefix, the page of one is full, and
   * the token skips the object of that key. The client runs out of tokens without having seen any object.
   */
  lemma PagesLoseAnObject(d: Text, info: FileInfo, first: Response, second: Response)
    requires IsUtf8(d) && !Separates(d) && d[0] < 0x80 && StrictOrder(Less)
    requires var t, scope := CollidingBucket(d, info), Scope([], Some(d));
      && IsMergedPage(Less, ObjectKeys(t, scope), PrefixKeys(t, scope), None, 1, first)
      && first.Page?
      && IsMergedPage(Less, ObjectKeys(t, scope), PrefixKeys(t, scope), first.nextToken, 1, second)
    ensures first.nextToken == Some(ShortKey(d)) && second.nextToken == None && !second.isTruncated
    ensures Keys(first.contents) + Keys(second.contents) == []
    ensures ShortKey(d) in ObjectKeys(CollidingBucket(d, info), Scope([], Some(d)))
  {
    var k := ShortKey(d);
    LongDelimiterCollides(d, info);
    OneKey(k, None, 1);
    OneKey(k, Some(k), 1);
    LessIrreflexive(k);
    assert MergedTo(Less, [k], [k], 0) == Progress(0, 0, None);
    assert MergedTo(Less, [k], [k], 1) == Progress(0, 1, Some(k));
  }
}
