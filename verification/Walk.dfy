/** The two directory walks behind a listing, and the grouping rule they implement. */
module Walk {
  import opened Bytes
  import opened Utf8
  import opened Tree
  import opened KeySets
  import opened ListingPages

  /** What the listing needs from one file: its `stat` and its stored ETag. */
  datatype FileInfo = FileInfo(size: nat, lastModified: int, etag: Option<Text>)

  type Bucket = Tree<FileInfo>

  /** Names that are not UTF-8 have no key and are passed over, with all that lies below them. */
  predicate Visible(p: Path) {
    forall n | n in p :: IsUtf8(n)
  }

  function ObjectAt(t: Bucket, key: Text): Object
    requires PathOf(key) in t.files
  {
    var info := t.files[PathOf(key)];
    Object(key, info.size, info.lastModified, info.etag)
  }

  /** The part of a bucket a request asks for. */
  datatype Scope = Scope(prefix: Text, delimiter: Option<Text>) {

    predicate Valid() {
      delimiter.Some? ==> delimiter.value != []
    }

    /** Listed as an object: under the prefix, with no delimiter behind it. */
    predicate Standalone(key: Text) {
      && prefix <= key
      && (delimiter.Some? ==> Find(key[|prefix|..], delimiter.value).None?)
    }

    /** Folded into a common prefix. */
    predicate Grouped(key: Text) {
      && delimiter.Some?
      && prefix <= key
      && Find(key[|prefix|..], delimiter.value).Some?
    }

    /** The common prefix: up to and including the delimiter's first byte. */
    function GroupOf(key: Text): Text
      requires Valid() && Grouped(key)
    {
      var rest := key[|prefix|..];
      prefix + rest[..Find(rest, delimiter.value).value + 1]
    }

    predicate BySlash() {
      delimiter == Some([SLASH])
    }
  }

  // ---- The naive listing: filter and group every key ----

  ghost function ObjectKeys(t: Bucket, scope: Scope): set<Text> {
    set p | p in t.files && Visible(p) && scope.Standalone(KeyOf(p)) :: KeyOf(p)
  }

  ghost function PrefixKeys(t: Bucket, scope: Scope): set<Text>
    requires scope.Valid()
  {
    (set p | p in t.files && Visible(p) && scope.Grouped(KeyOf(p)) :: scope.GroupOf(KeyOf(p)))
    + (set p | p in t.dirs && scope.BySlash() && Visible(p) && scope.Grouped(KeyOf(p) + [SLASH]) :: scope.GroupOf(KeyOf(p) + [SLASH]))
  }

  // ---- What has been accounted for while a walk is under way ----

  /** What path `p` contributes to the naive listing has been offered. */
  ghost predicate Covered(t: Bucket, scope: Scope, p: Path, keys: set<Text>, groups: set<Text>)
    requires scope.Valid()
  {
    Visible(p) ==>
      && (p in t.files && scope.Standalone(KeyOf(p)) ==> KeyOf(p) in keys)
      && (p in t.files && scope.Grouped(KeyOf(p)) ==> scope.GroupOf(KeyOf(p)) in groups)
      && (p in t.dirs && scope.BySlash() && scope.Grouped(KeyOf(p) + [SLASH]) ==> scope.GroupOf(KeyOf(p) + [SLASH]) in groups)
  }

  /** Only what the naive listing holds has been offered. */
  ghost predicate Sound(t: Bucket, scope: Scope, offered: map<Text, Object>, groups: set<Text>)
    requires scope.Valid()
  {
    forall i: int {:trigger Opened(i)} | Opened(i) :: OnlyNaive(t, scope, offered, groups)
  }

  ghost predicate OnlyNaive(t: Bucket, scope: Scope, offered: map<Text, Object>, groups: set<Text>)
    requires scope.Valid()
  {
    && groups <= PrefixKeys(t, scope)
    && forall k | k in offered :: k in ObjectKeys(t, scope) && PathOf(k) in t.files && offered[k] == ObjectAt(t, k)
  }

  lemma SoundWithGroup(t: Bucket, scope: Scope, offered: map<Text, Object>, groups: set<Text>, group: Text)
    requires scope.Valid() && Sound(t, scope, offered, groups) && group in PrefixKeys(t, scope)
    ensures Sound(t, scope, offered, groups + {group})
  {
  }

  lemma SoundWithObject(t: Bucket, scope: Scope, offered: map<Text, Object>, groups: set<Text>, path: Path)
    requires t.WellFormed() && scope.Valid() && Sound(t, scope, offered, groups)
    requires path in t.files && Visible(path) && scope.Standalone(KeyOf(path))
    ensures PathOf(KeyOf(path)) == path
    ensures KeyOf(path) in offered ==> offered[KeyOf(path)] == ObjectAt(t, KeyOf(path))
    ensures Sound(t, scope, offered[KeyOf(path) := ObjectAt(t, KeyOf(path))], groups)
  {
    assert Opened(0);
    PathOfKey(path);
    assert KeyOf(path) in ObjectKeys(t, scope);
  }

  /** Still ahead of the walk: below a queued directory, or at an unread entry of the current one. */
  ghost predicate Pending(p: Path, queue: seq<Path>, dir: Path, unread: set<Text>) {
    || (exists q | q in queue :: Below(p, q))
    || (Below(p, dir) && p[|dir|] in unread)
  }

  ghost predicate Accounted(t: Bucket, scope: Scope, queue: seq<Path>, dir: Path, unread: set<Text>, keys: set<Text>, groups: set<Text>)
    requires scope.Valid()
  {
    forall p | p in t.files.Keys + t.dirs :: Pending(p, queue, dir, unread) || Covered(t, scope, p, keys, groups)
  }

  /** One entry is done with: all at or below it is covered, or it is descended into. */
  ghost predicate Settled(t: Bucket, scope: Scope, path: Path, descend: bool, keys: set<Text>, groups: set<Text>)
    requires scope.Valid()
  {
    forall p | p in t.files.Keys + t.dirs && path <= p :: Covered(t, scope, p, keys, groups) || (descend && p != path)
  }

  /** Nothing is left ahead: the walk has offered the naive listing, no more and no less. */
  lemma WalkIsNaiveGrouping(t: Bucket, scope: Scope, dir: Path, offered: map<Text, Object>, groups: set<Text>)
    requires t.WellFormed() && scope.Valid()
    requires Sound(t, scope, offered, groups)
    requires Accounted(t, scope, [], dir, {}, offered.Keys, groups)
    ensures offered.Keys == ObjectKeys(t, scope)
    ensures groups == PrefixKeys(t, scope)
  {
    assert offered.Keys <= ObjectKeys(t, scope) && groups <= PrefixKeys(t, scope) by {
      assert Opened(0);
    }
    forall k | k in ObjectKeys(t, scope) ensures k in offered {
      ObjectCovered(t, scope, dir, offered.Keys, groups, k);
    }
    forall g | g in PrefixKeys(t, scope) ensures g in groups {
      PrefixCovered(t, scope, dir, offered.Keys, groups, g);
    }
  }

  lemma ObjectCovered(t: Bucket, scope: Scope, dir: Path, keys: set<Text>, groups: set<Text>, k: Text)
    requires scope.Valid() && Accounted(t, scope, [], dir, {}, keys, groups)
    requires k in ObjectKeys(t, scope)
    ensures k in keys
  {
    var p :| p in t.files && Visible(p) && scope.Standalone(KeyOf(p)) && k == KeyOf(p);
    assert Covered(t, scope, p, keys, groups);
  }

  lemma PrefixCovered(t: Bucket, scope: Scope, dir: Path, keys: set<Text>, groups: set<Text>, g: Text)
    requires scope.Valid() && Accounted(t, scope, [], dir, {}, keys, groups)
    requires g in PrefixKeys(t, scope)
    ensures g in groups
  {
    if p :| p in t.files && Visible(p) && scope.Grouped(KeyOf(p)) && g == scope.GroupOf(KeyOf(p)) {
      assert Covered(t, scope, p, keys, groups);
    } else {
      var p :| p in t.dirs && scope.BySlash() && Visible(p) && scope.Grouped(KeyOf(p) + [SLASH]) && g == scope.GroupOf(KeyOf(p) + [SLASH]);
      assert Covered(t, scope, p, keys, groups);
    }
  }

  // ---- Why a directory may be skipped or collapsed ----

  /** A directory whose key and the prefix diverge holds nothing that is asked for. */
  lemma DivergentBelow(t: Bucket, scope: Scope, path: Path, keys: set<Text>, groups: set<Text>)
    requires scope.Valid() && ValidPath(path) && path in t.dirs && t.WellFormed()
    requires !(scope.prefix <= KeyOf(path) + [SLASH]) && !(KeyOf(path) + [SLASH] <= scope.prefix)
    ensures Settled(t, scope, path, false, keys, groups)
  {
    var folder := KeyOf(path) + [SLASH];
    forall p | path <= p && p in t.files.Keys + t.dirs ensures Covered(t, scope, p, keys, groups) {
      if p != path {
        KeyBelow(p, path);
        assert folder <= KeyOf(p) <= KeyOf(p) + [SLASH];
      }
    }
  }

  lemma GroupInExtension(scope: Scope, key: Text, longer: Text)
    requires scope.Valid() && scope.Grouped(key) && key <= longer
    ensures scope.Grouped(longer) && scope.GroupOf(longer) == scope.GroupOf(key) && !scope.Standalone(longer)
  {
    var rest, more := key[|scope.prefix|..], longer[|key|..];
    assert longer == key + more;
    assert longer[|scope.prefix|..] == rest + more;
    FindInExtension(rest, more, scope.delimiter.value);
    var pos := Find(rest, scope.delimiter.value).value;
    assert (rest + more)[..pos + 1] == rest[..pos + 1];
  }

  /** A directory past the `/` boundary contributes one common prefix, whatever lies in it. */
  lemma CollapsedBelow(t: Bucket, scope: Scope, path: Path, keys: set<Text>, groups: set<Text>)
    requires scope.Valid() && scope.BySlash() && path in t.dirs && t.WellFormed()
    requires scope.Grouped(KeyOf(path) + [SLASH]) && scope.GroupOf(KeyOf(path) + [SLASH]) in groups
    ensures Settled(t, scope, path, false, keys, groups)
  {
    var folder := KeyOf(path) + [SLASH];
    forall p | path <= p && p in t.files.Keys + t.dirs ensures Covered(t, scope, p, keys, groups) {
      if p != path {
        KeyBelow(p, path);
        GroupInExtension(scope, folder, KeyOf(p));
        GroupInExtension(scope, folder, KeyOf(p) + [SLASH]);
      }
    }
  }

  // ---- The work left, for termination ----

  ghost function Under(t: Bucket, path: Path): set<Path> {
    set p | p in t.files.Keys + t.dirs && path <= p
  }

  ghost function Weight(t: Bucket, dir: Path): nat {
    1 + |set p | p in t.files.Keys + t.dirs && Below(p, dir)|
  }

  ghost function QueueWeight(t: Bucket, queue: seq<Path>): nat {
    if queue == [] then 0 else Weight(t, queue[0]) + QueueWeight(t, queue[1..])
  }

  ghost function UnreadBelow(t: Bucket, dir: Path, unread: set<Text>): set<Path> {
    set p | p in t.files.Keys + t.dirs && Below(p, dir) && p[|dir|] in unread
  }

  lemma {:induction false} QueueWeightSnoc(t: Bucket, queue: seq<Path>, dir: Path)
    ensures QueueWeight(t, queue + [dir]) == QueueWeight(t, queue) + Weight(t, dir)
  {
    if queue == [] {
      assert queue + [dir] == [dir];
    } else {
      assert (queue + [dir])[1..] == queue[1..] + [dir];
      QueueWeightSnoc(t, queue[1..], dir);
    }
  }

  /** Reading one entry pays for queueing it. */
  lemma EntryWeight(t: Bucket, dir: Path, unread: set<Text>, name: Text)
    requires name in unread && dir + [name] in t.files.Keys + t.dirs
    ensures |UnreadBelow(t, dir, unread)| == |UnreadBelow(t, dir, unread - {name})| + Weight(t, dir + [name])
  {
    var path := dir + [name];
    var mine, others := Under(t, path), UnreadBelow(t, dir, unread - {name});
    forall p | p in UnreadBelow(t, dir, unread) ensures p in mine + others {
      if p[|dir|] == name {
        assert path == p[..|path|];
      }
    }
    assert forall p | p in mine :: Below(p, dir) && p[|dir|] == name;
    assert UnreadBelow(t, dir, unread) == mine + others;
    var below := set p | p in t.files.Keys + t.dirs && Below(p, path);
    forall p | p in mine ensures p in {path} + below {
      if |p| == |path| {
        assert p == path;
      }
    }
    assert mine == {path} + below;
  }

  lemma AllEntriesWeight(t: Bucket, dir: Path)
    ensures |UnreadBelow(t, dir, t.Entries(dir))| + 1 <= Weight(t, dir)
  {
    var below := set p | p in t.files.Keys + t.dirs && Below(p, dir);
    SubsetSize(UnreadBelow(t, dir, t.Entries(dir)), below);
  }

  // ---- The walks ----

  /** Everything below a directory is reached through one of its entries. */
  lemma OpenDirectory(t: Bucket, scope: Scope, queue: seq<Path>, was: Path, keys: set<Text>, groups: set<Text>)
    requires t.WellFormed() && scope.Valid() && queue != []
    requires Accounted(t, scope, queue, was, {}, keys, groups)
    ensures Accounted(t, scope, queue[1..], queue[0], t.Entries(queue[0]), keys, groups)
  {
    var dir := queue[0];
    forall p | p in t.files.Keys + t.dirs && Pending(p, queue, was, {})
      ensures Pending(p, queue[1..], dir, t.Entries(dir))
    {
      var q :| q in queue && Below(p, q);
      if q == dir {
        var child := p[..|dir| + 1];
        if child != p {
          AncestorsAreDirectories(t, p, child);
        }
        assert child in t.files.Keys + t.dirs && Parent(child) == dir && Name(child) == p[|dir|];
      } else {
        assert queue == [dir] + queue[1..];
        assert q in queue[1..];
      }
    }
  }

  lemma CloseEntry(t: Bucket, scope: Scope, queue: seq<Path>, dir: Path, unread: set<Text>, name: Text,
                   keys: set<Text>, groups: set<Text>, queue': seq<Path>, keys': set<Text>, groups': set<Text>)
    requires scope.Valid() && Accounted(t, scope, queue, dir, unread, keys, groups)
    requires keys <= keys' && groups <= groups'
    requires queue' == queue || queue' == queue + [dir + [name]]
    requires Settled(t, scope, dir + [name], queue' != queue, keys', groups')
    ensures Accounted(t, scope, queue', dir, unread - {name}, keys', groups')
  {
    forall p | p in t.files.Keys + t.dirs
      ensures Pending(p, queue', dir, unread - {name}) || Covered(t, scope, p, keys', groups')
    {
      if Below(p, dir) && p[|dir|] == name {
        assert dir + [name] == p[..|dir| + 1];
        if !Covered(t, scope, p, keys', groups') {
          assert dir + [name] in queue';
        }
      } else if Pending(p, queue, dir, unread) {
        if q :| q in queue && Below(p, q) {
          assert q in queue';
        }
      } else {
        assert Covered(t, scope, p, keys, groups);
      }
    }
  }

  lemma EntryPath(t: Bucket, dir: Path, name: Text)
    requires name in t.Entries(dir)
    ensures dir + [name] in t.files.Keys + t.dirs
  {
    var p :| p in t.files.Keys + t.dirs && p != [] && Parent(p) == dir && Name(p) == name;
    assert p == dir + [name];
  }

  // ---- Which directories a walk reads ----

  /**
   * Without a delimiter, those below which a key can begin with the prefix. With `/`, those whose key is a proper
   * beginning of the prefix. With another delimiter, those whose key begins the prefix or begins with it.
   */
  ghost predicate IsRead(scope: Scope, dir: Path) {
    dir == [] ||
    (Visible(dir) && var key := KeyOf(dir);
      if scope.delimiter.None? then exists rest :: scope.prefix <= key + [SLASH] + rest
      else if scope.BySlash() then key < scope.prefix
      else key <= scope.prefix || scope.prefix <= key)
  }

  ghost predicate AllRead(t: Bucket, scope: Scope, dirs: set<Path>) {
    forall d | d in dirs :: t.IsDirectory(d) && IsRead(scope, d)
  }

  lemma ExtensionReaches(prefix: Text, folder: Text)
    ensures (exists rest :: prefix <= folder + rest) <==> prefix <= folder || folder <= prefix
  {
    if folder <= prefix {
      assert folder + prefix[|folder|..] == prefix;
    } else if prefix <= folder {
      assert folder + [] == folder;
    }
    forall rest | prefix <= folder + rest ensures prefix <= folder || folder <= prefix {
      if |prefix| <= |folder| {
        assert prefix == (folder + rest)[..|prefix|] == folder[..|prefix|];
      } else {
        assert folder == (folder + rest)[..|folder|] == prefix[..|folder|];
      }
    }
  }

  lemma FolderPastPrefix(prefix: Text, key: Text)
    requires prefix <= key || key <= prefix
    ensures prefix <= key + [SLASH] && Find((key + [SLASH])[|prefix|..], [SLASH]).Some? <==> !(key < prefix)
  {
    var folder := key + [SLASH];
    if prefix <= key {
      var rest := folder[|prefix|..];
      assert rest[|rest| - 1..] == [SLASH];
      assert [SLASH] <= rest[|rest| - 1..];
    } else if prefix <= folder {
      assert prefix == folder;
      assert folder[|prefix|..] == [];
    }
  }

  lemma SlashWalkReads(t: Bucket, scope: Scope, path: Path)
    requires t.WellFormed() && scope.BySlash() && path in t.dirs && Visible(path)
    requires scope.prefix <= KeyOf(path) || KeyOf(path) <= scope.prefix
    ensures var folder := KeyOf(path) + [SLASH];
      scope.prefix <= folder && Find(folder[|scope.prefix|..], [SLASH]).Some? <==> !IsRead(scope, path)
  {
    assert path in t.files.Keys + t.dirs;
    FolderPastPrefix(scope.prefix, KeyOf(path));
  }

  /** A listing by `/` reads the bucket root and at most one directory for each byte of the prefix. */
  lemma FewDirectoriesAreRead(t: Bucket, scope: Scope, dirs: set<Path>)
    requires t.WellFormed() && scope.BySlash() && AllRead(t, scope, dirs)
    ensures |dirs| <= |scope.prefix| + 1
  {
    forall d | d in dirs - {[]} ensures 0 <= |KeyOf(d)| < |scope.prefix| && PathOf(KeyOf(d)) == d {
      assert d in t.files.Keys + t.dirs;
      PathOfKey(d);
    }
    forall d, e | d in dirs - {[]} && e in dirs - {[]} && |KeyOf(d)| == |KeyOf(e)| ensures d == e {
      assert KeyOf(d) == scope.prefix[..|KeyOf(d)|] == KeyOf(e);
    }
    OneEach(dirs - {[]}, d => |KeyOf(d)|, |scope.prefix|);
    assert |dirs| <= |dirs - {[]}| + 1 by {
      assert dirs <= (dirs - {[]}) + {[]};
      if [] in dirs {
        assert dirs == (dirs - {[]}) + {[]};
      } else {
        assert dirs == dirs - {[]};
      }
    }
  }

  lemma {:induction false} OneEach(s: set<Path>, f: Path -> nat, n: nat)
    requires forall d | d in s :: f(d) < n
    requires forall d, e | d in s && e in s && f(d) == f(e) :: d == e
    ensures |s| <= n
    decreases n
  {
    if n == 0 {
      assert s == {};
    } else if d :| d in s && f(d) == n - 1 {
      OneEach(s - {d}, f, n - 1);
    } else {
      OneEach(s, f, n - 1);
    }
  }

  method ListObjectsWithDelimiter(t: Bucket, scope: Scope, page: ListingPage) returns (ghost read: set<Path>)
    requires t.WellFormed() && scope.Valid() && scope.delimiter.Some?
    requires page.Valid() && page.offered == map[] && page.offeredPrefixes == {}
    modifies page
    ensures page.Valid() && Sound(t, scope, page.offered, page.offeredPrefixes)
    ensures page.offered.Keys == ObjectKeys(t, scope)
    ensures page.offeredPrefixes == PrefixKeys(t, scope)
    ensures AllRead(t, scope, read) && (scope.BySlash() ==> |read| <= |scope.prefix| + 1)
  {
    var queue: seq<Path> := [[]];
    ghost var last: Path := [];
    read := {};
    assert forall p | p in t.files.Keys + t.dirs :: Below(p, queue[0]);
    while queue != []
      invariant page.Valid() && Sound(t, scope, page.offered, page.offeredPrefixes)
      invariant Accounted(t, scope, queue, last, {}, page.offered.Keys, page.offeredPrefixes)
      invariant AllRead(t, scope, read) && forall q | q in queue :: t.IsDirectory(q) && IsRead(scope, q)
      decreases QueueWeight(t, queue)
    {
      var dir := queue[0];
      read := read + {dir};
      OpenDirectory(t, scope, queue, last, page.offered.Keys, page.offeredPrefixes);
      AllEntriesWeight(t, dir);
      queue := ReadGrouped(t, scope, dir, queue[1..], page);
      last := dir;
    }
    WalkIsNaiveGrouping(t, scope, last, page.offered, page.offeredPrefixes);
    if scope.BySlash() {
      FewDirectoriesAreRead(t, scope, read);
    }
  }

  /** Read one directory of the grouped walk, in whatever order its entries come. */
  method ReadGrouped(t: Bucket, scope: Scope, dir: Path, queued: seq<Path>, page: ListingPage) returns (queue: seq<Path>)
    requires t.WellFormed() && scope.Valid() && scope.delimiter.Some?
    requires page.Valid() && Sound(t, scope, page.offered, page.offeredPrefixes)
    requires Accounted(t, scope, queued, dir, t.Entries(dir), page.offered.Keys, page.offeredPrefixes)
    requires forall q | q in queued :: t.IsDirectory(q) && IsRead(scope, q)
    modifies page
    ensures page.Valid() && Sound(t, scope, page.offered, page.offeredPrefixes)
    ensures Accounted(t, scope, queue, dir, {}, page.offered.Keys, page.offeredPrefixes)
    ensures forall q | q in queue :: t.IsDirectory(q) && IsRead(scope, q)
    ensures QueueWeight(t, queue) <= QueueWeight(t, queued) + |UnreadBelow(t, dir, t.Entries(dir))|
  {
    queue := queued;
    var unread := t.Entries(dir);
    while unread != {}
      invariant page.Valid() && Sound(t, scope, page.offered, page.offeredPrefixes)
      invariant Accounted(t, scope, queue, dir, unread, page.offered.Keys, page.offeredPrefixes)
      invariant unread <= t.Entries(dir)
      invariant QueueWeight(t, queue) + |UnreadBelow(t, dir, unread)| <= QueueWeight(t, queued) + |UnreadBelow(t, dir, t.Entries(dir))|
      invariant forall q | q in queue :: t.IsDirectory(q) && IsRead(scope, q)
      decreases |unread|
    {
      var name :| name in unread;
      var path := dir + [name];
      EntryPath(t, dir, name);
      EntryWeight(t, dir, unread, name);
      QueueWeightSnoc(t, queue, path);
      ghost var queue0, keys0, groups0 := queue, page.offered.Keys, page.offeredPrefixes;
      var descend := VisitGrouped(t, scope, path, page);
      if descend {
        queue := queue + [path];
      }
      CloseEntry(t, scope, queue0, dir, unread, name, keys0, groups0, queue, page.offered.Keys, page.offeredPrefixes);
      unread := unread - {name};
    }
  }

  method ListObjectsRecursive(t: Bucket, scope: Scope, page: ListingPage) returns (ghost read: set<Path>)
    requires t.WellFormed() && scope.Valid() && scope.delimiter.None?
    requires page.Valid() && page.offered == map[] && page.offeredPrefixes == {}
    modifies page
    ensures page.Valid() && Sound(t, scope, page.offered, page.offeredPrefixes)
    ensures page.offered.Keys == ObjectKeys(t, scope)
    ensures page.offeredPrefixes == PrefixKeys(t, scope)
    ensures AllRead(t, scope, read)
  {
    var queue: seq<Path> := [[]];
    ghost var last: Path := [];
    read := {};
    assert forall p | p in t.files.Keys + t.dirs :: Below(p, queue[0]);
    while queue != []
      invariant page.Valid() && Sound(t, scope, page.offered, page.offeredPrefixes)
      invariant Accounted(t, scope, queue, last, {}, page.offered.Keys, page.offeredPrefixes)
      invariant AllRead(t, scope, read) && forall q | q in queue :: t.IsDirectory(q) && IsRead(scope, q)
      decreases QueueWeight(t, queue)
    {
      var dir := queue[0];
      read := read + {dir};
      OpenDirectory(t, scope, queue, last, page.offered.Keys, page.offeredPrefixes);
      AllEntriesWeight(t, dir);
      queue := ReadAll(t, scope, dir, queue[1..], page);
      last := dir;
    }
    WalkIsNaiveGrouping(t, scope, last, page.offered, page.offeredPrefixes);
  }

  /** Read one directory of the plain walk, in whatever order its entries come. */
  method ReadAll(t: Bucket, scope: Scope, dir: Path, queued: seq<Path>, page: ListingPage) returns (queue: seq<Path>)
    requires t.WellFormed() && scope.Valid() && scope.delimiter.None?
    requires page.Valid() && Sound(t, scope, page.offered, page.offeredPrefixes)
    requires Accounted(t, scope, queued, dir, t.Entries(dir), page.offered.Keys, page.offeredPrefixes)
    requires forall q | q in queued :: t.IsDirectory(q) && IsRead(scope, q)
    modifies page
    ensures page.Valid() && Sound(t, scope, page.offered, page.offeredPrefixes)
    ensures Accounted(t, scope, queue, dir, {}, page.offered.Keys, page.offeredPrefixes)
    ensures forall q | q in queue :: t.IsDirectory(q) && IsRead(scope, q)
    ensures QueueWeight(t, queue) <= QueueWeight(t, queued) + |UnreadBelow(t, dir, t.Entries(dir))|
  {
    queue := queued;
    var unread := t.Entries(dir);
    while unread != {}
      invariant page.Valid() && Sound(t, scope, page.offered, page.offeredPrefixes)
      invariant Accounted(t, scope, queue, dir, unread, page.offered.Keys, page.offeredPrefixes)
      invariant unread <= t.Entries(dir)
      invariant QueueWeight(t, queue) + |UnreadBelow(t, dir, unread)| <= QueueWeight(t, queued) + |UnreadBelow(t, dir, t.Entries(dir))|
      invariant forall q | q in queue :: t.IsDirectory(q) && IsRead(scope, q)
      decreases |unread|
    {
      var name :| name in unread;
      var path := dir + [name];
      EntryPath(t, dir, name);
      EntryWeight(t, dir, unread, name);
      QueueWeightSnoc(t, queue, path);
      ghost var queue0, keys0, groups0 := queue, page.offered.Keys, page.offeredPrefixes;
      var descend := VisitPlain(t, scope, path, page);
      if descend {
        queue := queue + [path];
      }
      CloseEntry(t, scope, queue0, dir, unread, name, keys0, groups0, queue, page.offered.Keys, page.offeredPrefixes);
      unread := unread - {name};
    }
  }

  /** One directory entry of the plain walk; says whether to descend into it. */
  method VisitPlain(t: Bucket, scope: Scope, path: Path, page: ListingPage) returns (descend: bool)
    requires t.WellFormed() && scope.Valid() && scope.delimiter.None?
    requires path in t.files.Keys + t.dirs
    requires page.Valid() && Sound(t, scope, page.offered, page.offeredPrefixes)
    modifies page
    ensures page.Valid() && Sound(t, scope, page.offered, page.offeredPrefixes)
    ensures old(page.offered.Keys) <= page.offered.Keys && old(page.offeredPrefixes) <= page.offeredPrefixes
    ensures descend <==> path in t.dirs && IsRead(scope, path)
    ensures Settled(t, scope, path, descend, page.offered.Keys, page.offeredPrefixes)
  {
    var prefix := scope.prefix;
    if !Visible(path) {
      return false;
    }
    var key := KeyOf(path);
    if path in t.dirs {
      ExtensionReaches(prefix, key + [SLASH]);
      if prefix != [] {
        var folder := key + [SLASH];
        if !(prefix <= folder) && !(folder <= prefix) {
          DivergentBelow(t, scope, path, page.offered.Keys, page.offeredPrefixes);
          return false;
        }
      }
      return true;
    }
    if prefix != [] && !(prefix <= key) {
      PassedOverFile(t, scope, path, page.offered.Keys, page.offeredPrefixes);
      return false;
    }
    OnlyItself(t, path);
    OfferFile(t, scope, path, page);
    descend := false;
  }

  /** One directory entry of the grouped walk; says whether to descend into it. */
  method VisitGrouped(t: Bucket, scope: Scope, path: Path, page: ListingPage) returns (descend: bool)
    requires t.WellFormed() && scope.Valid() && scope.delimiter.Some?
    requires path in t.files.Keys + t.dirs
    requires page.Valid() && Sound(t, scope, page.offered, page.offeredPrefixes)
    modifies page
    ensures page.Valid() && Sound(t, scope, page.offered, page.offeredPrefixes)
    ensures old(page.offered.Keys) <= page.offered.Keys && old(page.offeredPrefixes) <= page.offeredPrefixes
    ensures descend <==> path in t.dirs && IsRead(scope, path)
    ensures Settled(t, scope, path, descend, page.offered.Keys, page.offeredPrefixes)
  {
    var prefix := scope.prefix;
    if !Visible(path) {
      return false;
    }
    var key := KeyOf(path);
    var isDir := path in t.dirs;
    if prefix != [] && !(prefix <= key) {
      if isDir && !(key <= prefix) {
        DivergentFromKey(t, scope, path, page.offered.Keys, page.offeredPrefixes);
        return false;
      }
      if !isDir {
        PassedOverFile(t, scope, path, page.offered.Keys, page.offeredPrefixes);
        return false;
      }
    }
    if isDir {
      descend := VisitDirectory(t, scope, path, page);
    } else {
      VisitFile(t, scope, path, page);
      descend := false;
    }
  }

  method VisitDirectory(t: Bucket, scope: Scope, path: Path, page: ListingPage) returns (descend: bool)
    requires t.WellFormed() && scope.Valid() && scope.delimiter.Some?
    requires path in t.dirs && Visible(path) && (scope.prefix <= KeyOf(path) || KeyOf(path) <= scope.prefix)
    requires page.Valid() && Sound(t, scope, page.offered, page.offeredPrefixes)
    modifies page
    ensures page.Valid() && Sound(t, scope, page.offered, page.offeredPrefixes)
    ensures page.offered == old(page.offered) && old(page.offeredPrefixes) <= page.offeredPrefixes
    ensures descend <==> IsRead(scope, path)
    ensures Settled(t, scope, path, descend, page.offered.Keys, page.offeredPrefixes)
  {
    var prefix, delimiter := scope.prefix, scope.delimiter.value;
    if delimiter == [SLASH] {
      SlashWalkReads(t, scope, path);
      var folder := KeyOf(path) + delimiter;
      if prefix <= folder && Find(folder[|prefix|..], delimiter).Some? {
        var rest := folder[|prefix|..];
        var group := prefix + rest[..Find(rest, delimiter).value + |delimiter|];
        assert group == scope.GroupOf(KeyOf(path) + [SLASH]);
        SoundWithGroup(t, scope, page.offered, page.offeredPrefixes, group);
        page.PushPrefix(group);
        CollapsedBelow(t, scope, path, page.offered.Keys, page.offeredPrefixes);
        return false;
      }
    }
    descend := true;
  }

  method VisitFile(t: Bucket, scope: Scope, path: Path, page: ListingPage)
    requires t.WellFormed() && scope.Valid() && scope.delimiter.Some?
    requires path in t.files && Visible(path) && scope.prefix <= KeyOf(path)
    requires page.Valid() && Sound(t, scope, page.offered, page.offeredPrefixes)
    modifies page
    ensures page.Valid() && Sound(t, scope, page.offered, page.offeredPrefixes)
    ensures old(page.offered.Keys) <= page.offered.Keys && old(page.offeredPrefixes) <= page.offeredPrefixes
    ensures Settled(t, scope, path, false, page.offered.Keys, page.offeredPrefixes)
  {
    var key := KeyOf(path);
    var remaining := key[|scope.prefix|..];
    OnlyItself(t, path);
    match Find(remaining, scope.delimiter.value)
    case Some(pos) =>
      var group := scope.prefix + remaining[..pos + 1];
      assert group == scope.GroupOf(key);
      SoundWithGroup(t, scope, page.offered, page.offeredPrefixes, group);
      page.PushPrefix(group);
    case None =>
      OfferFile(t, scope, path, page);
  }

  /** The file branch both walks share: the gate comes first, the `stat` only behind it. */
  method OfferFile(t: Bucket, scope: Scope, path: Path, page: ListingPage)
    requires t.WellFormed() && scope.Valid() && path in t.files && Visible(path) && scope.Standalone(KeyOf(path))
    requires page.Valid() && Sound(t, scope, page.offered, page.offeredPrefixes)
    modifies page
    ensures page.Valid() && Sound(t, scope, page.offered, page.offeredPrefixes)
    ensures page.offered.Keys == old(page.offered.Keys) + {KeyOf(path)}
    ensures page.offeredPrefixes == old(page.offeredPrefixes)
  {
    var key := KeyOf(path);
    SoundWithObject(t, scope, page.offered, page.offeredPrefixes, path);
    if !page.Accepts(key) {
      page.Refuse(key, ObjectAt(t, key));
    } else {
      var info := t.files[path];
      page.PushObject(key, Object(key, info.size, info.lastModified, info.etag));
    }
  }

  lemma OnlyItself(t: Bucket, path: Path)
    requires t.WellFormed() && path in t.files
    ensures forall p | p in t.files.Keys + t.dirs && path <= p :: p == path
  {
    forall p | p in t.files.Keys + t.dirs && path <= p ensures p == path {
      if p != path {
        AncestorsAreDirectories(t, p, path);
      }
    }
  }

  lemma PassedOverFile(t: Bucket, scope: Scope, path: Path, keys: set<Text>, groups: set<Text>)
    requires t.WellFormed() && scope.Valid() && path in t.files && !(scope.prefix <= KeyOf(path))
    ensures Settled(t, scope, path, false, keys, groups)
  {
    OnlyItself(t, path);
  }

  lemma DivergentFromKey(t: Bucket, scope: Scope, path: Path, keys: set<Text>, groups: set<Text>)
    requires scope.Valid() && path in t.dirs && t.WellFormed()
    requires !(scope.prefix <= KeyOf(path)) && !(KeyOf(path) <= scope.prefix)
    ensures Settled(t, scope, path, false, keys, groups)
  {
    var folder := KeyOf(path) + [SLASH];
    DivergentBelow(t, scope, path, keys, groups);
  }
}
