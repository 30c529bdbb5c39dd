/** Puts and deletes over the directory tree of one bucket. */
module Namespace {
  import opened Bytes
  import opened Tree

  type Files = Tree<Text>

  /** A key with a slash at its end names a folder. */
  predicate IsFolderKey(key: Text) {
    key != [] && key[|key| - 1] == SLASH
  }

  function PathOfObject(key: Text): Path {
    PathOf(if IsFolderKey(key) then key[..|key| - 1] else key)
  }

  /** A key whose path has nothing to be resolved: no empty parts, no `.` and no `..`. */
  predicate IsNormal(key: Text) {
    ValidPath(PathOfObject(key))
  }

  predicate Exists(t: Files, p: Path) {
    p in t.files || t.IsDirectory(p)
  }

  // ---- Puts ----

  /** The directories from the first name down to `dir`. */
  function Chain(dir: Path): set<Path> {
    set n | 1 <= n <= |dir| :: dir[..n]
  }

  /** Creates `dir` and what is missing above it, unless a file is in the way. */
  function MakeDirs(t: Files, dir: Path): Option<Files> {
    if exists d | d in Chain(dir) :: d in t.files then None else Some(t.(dirs := t.dirs + Chain(dir)))
  }

  /** The directories are made, and the finished body is renamed into place, which no directory may hold. */
  function PutFile(t: Files, p: Path, body: Text): Option<Files>
    requires p != []
  {
    var made := MakeDirs(t, Parent(p));
    if made.None? || p in made.value.dirs then None else Some(made.value.(files := t.files[p := body]))
  }

  // ---- Deletes ----

  predicate IsEmptyDir(t: Files, dir: Path) {
    t.IsDirectory(dir) && t.Entries(dir) == {}
  }

  function RemoveObject(t: Files, key: Text): Files {
    var p := PathOfObject(key);
    if IsFolderKey(key) then
      if IsEmptyDir(t, p) then t.(dirs := t.dirs - {p}) else t
    else if t.IsDirectory(p) then t
    else t.(files := t.files - {p})
  }

  /** Removes `dir` and the directories above it for as long as they are empty, but never the bucket root. */
  function Prune(t: Files, dir: Path): Files
    decreases |dir|
  {
    if dir == [] || !IsEmptyDir(t, dir) then t else Prune(t.(dirs := t.dirs - {dir}), Parent(dir))
  }

  function Delete(t: Files, key: Text): Files
    requires IsNormal(key)
  {
    if Exists(t, PathOfObject(key)) then Prune(RemoveObject(t, key), Parent(PathOfObject(key))) else t
  }

  function DeleteAll(t: Files, keys: seq<Text>): Files
    requires forall k | k in keys :: IsNormal(k)
  {
    if keys == [] then t else Delete(DeleteAll(t, keys[..|keys| - 1]), keys[|keys| - 1])
  }

  // ---- No directory without a file beneath it ----

  ghost predicate Backed(t: Files, dir: Path) {
    exists f :: f in t.files && Below(f, dir)
  }

  ghost predicate NoPhantoms(t: Files) {
    forall d | d in t.dirs :: Backed(t, d)
  }

  /** Only `dir` and the directories above it may be without a file. */
  ghost predicate NoPhantomsBut(t: Files, dir: Path) {
    forall d | d in t.dirs :: Backed(t, d) || d <= dir
  }

  lemma ChainIsValid(p: Path, d: Path)
    requires ValidPath(p) && d in Chain(p)
    ensures ValidPath(d) && d <= p && (Parent(d) == [] || Parent(d) in Chain(p))
  {
    var n :| 1 <= n <= |p| && d == p[..n];
    assert Parent(d) == p[..n - 1];
  }

  lemma PutFileIsWellFormed(t: Files, p: Path, body: Text)
    requires t.WellFormed() && ValidPath(p) && PutFile(t, p, body).Some?
    ensures PutFile(t, p, body).value.WellFormed()
  {
    var u, dir := PutFile(t, p, body).value, Parent(p);
    if dir == [] {
      assert Chain(dir) == {};
    } else {
      assert dir == dir[..|dir|] && dir in Chain(dir);
    }
    forall q | q in u.files.Keys + u.dirs ensures ValidPath(q) && u.IsDirectory(Parent(q)) {
      if q in Chain(dir) {
        ChainIsValid(dir, q);
      } else if q != p {
        assert q in t.files.Keys + t.dirs;
      }
    }
  }

  lemma PutFileLeavesNoPhantoms(t: Files, p: Path, body: Text)
    requires ValidPath(p) && NoPhantoms(t) && PutFile(t, p, body).Some?
    ensures NoPhantoms(PutFile(t, p, body).value)
  {
    var u := PutFile(t, p, body).value;
    forall d | d in u.dirs ensures Backed(u, d) {
      if d in Chain(Parent(p)) {
        var n :| 1 <= n <= |Parent(p)| && d == Parent(p)[..n];
        assert d == p[..n];
        assert p in u.files && Below(p, d);
      } else {
        var f :| f in t.files && Below(f, d);
        assert f in u.files;
      }
    }
  }

  lemma PruneStepIsWellFormed(t: Files, dir: Path)
    requires t.WellFormed() && IsEmptyDir(t, dir)
    ensures t.(dirs := t.dirs - {dir}).WellFormed()
  {
    var u := t.(dirs := t.dirs - {dir});
    forall q | q in u.files.Keys + u.dirs ensures ValidPath(q) && u.IsDirectory(Parent(q)) {
      assert q in t.files.Keys + t.dirs;
      assert Name(q) in t.Entries(Parent(q));
    }
  }

  lemma {:induction false} PruneIsWellFormed(t: Files, dir: Path)
    requires t.WellFormed()
    ensures Prune(t, dir).WellFormed() && Prune(t, dir).files == t.files && Prune(t, dir).dirs <= t.dirs
    decreases |dir|
  {
    if dir != [] && IsEmptyDir(t, dir) {
      PruneStepIsWellFormed(t, dir);
      PruneIsWellFormed(t.(dirs := t.dirs - {dir}), Parent(dir));
    }
  }

  /** A directory with an entry has a file beneath it, and so has everything above it. */
  lemma EntryBacks(t: Files, dir: Path, d: Path)
    requires t.WellFormed() && NoPhantomsBut(t, dir) && t.Entries(dir) != {} && d <= dir
    ensures Backed(t, d)
  {
    var name :| name in t.Entries(dir);
    var q :| q in t.files.Keys + t.dirs && q != [] && Parent(q) == dir && Name(q) == name;
    if q !in t.files {
      assert !(q <= dir);
      var f :| f in t.files && Below(f, q);
      assert Below(f, d);
    }
  }

  lemma {:induction false} PruneLeavesNoPhantoms(t: Files, dir: Path)
    requires t.WellFormed() && t.IsDirectory(dir) && NoPhantomsBut(t, dir)
    ensures NoPhantoms(Prune(t, dir))
    ensures forall d | d in t.dirs && d !in Prune(t, dir).dirs :: !Backed(t, d)
    decreases |dir|
  {
    if dir == [] {
      NothingAboveRoot(t);
    } else if IsEmptyDir(t, dir) {
      PruneStep(t, dir);
      PruneLeavesNoPhantoms(t.(dirs := t.dirs - {dir}), Parent(dir));
    } else {
      forall d | d in t.dirs ensures Backed(t, d) {
        if d <= dir {
          EntryBacks(t, dir, d);
        }
      }
    }
  }

  lemma NothingAboveRoot(t: Files)
    requires t.WellFormed() && NoPhantomsBut(t, [])
    ensures NoPhantoms(t)
  {
    forall d | d in t.dirs ensures Backed(t, d) {
      assert d in t.files.Keys + t.dirs;
      assert d != [];
    }
  }

  lemma PruneStep(t: Files, dir: Path)
    requires t.WellFormed() && dir in t.dirs && IsEmptyDir(t, dir) && NoPhantomsBut(t, dir)
    ensures var u := t.(dirs := t.dirs - {dir});
      u.WellFormed() && u.IsDirectory(Parent(dir)) && NoPhantomsBut(u, Parent(dir)) && !Backed(t, dir)
  {
    var u := t.(dirs := t.dirs - {dir});
    PruneStepIsWellFormed(t, dir);
    assert dir in t.files.Keys + t.dirs;
    forall d | d in u.dirs ensures Backed(u, d) || d <= Parent(dir) {
      if Backed(t, d) {
        var f :| f in t.files && Below(f, d);
        assert f in u.files;
      } else {
        assert d <= dir && d != dir;
      }
    }
    EmptyIsNotBacked(t, dir);
  }

  lemma EmptyIsNotBacked(t: Files, dir: Path)
    requires t.WellFormed() && t.Entries(dir) == {}
    ensures !Backed(t, dir)
  {
    if f :| f in t.files && Below(f, dir) {
      ChildTowards(t, f, dir);
    }
  }

  /** Below a directory there is nothing without an entry in it. */
  lemma {:induction false} ChildTowards(t: Files, p: Path, dir: Path)
    requires t.WellFormed() && p in t.files.Keys + t.dirs && Below(p, dir)
    ensures t.Entries(dir) != {}
    decreases |p|
  {
    if Parent(p) == dir {
      assert Name(p) in t.Entries(dir);
    } else {
      ChildTowards(t, Parent(p), dir);
    }
  }

  /** Pruning removes exactly those directories on its way with nothing beneath them but each other. */
  lemma {:induction false} PruneRemovesExactly(t: Files, dir: Path, d: Path)
    requires t.WellFormed() && t.IsDirectory(dir) && d in t.dirs
    ensures d !in Prune(t, dir).dirs <==> d <= dir && forall q | q in t.files.Keys + t.dirs && Below(q, d) :: q <= dir
    decreases |dir|
  {
    assert d in t.files.Keys + t.dirs;
    if dir != [] && IsEmptyDir(t, dir) {
      var u := t.(dirs := t.dirs - {dir});
      PruneStepIsWellFormed(t, dir);
      assert dir in t.files.Keys + t.dirs;
      PruneIsWellFormed(u, Parent(dir));
      if d == dir {
        NothingBelow(t, dir);
      } else {
        PruneRemovesExactly(u, Parent(dir), d);
        forall q | q in t.files.Keys + t.dirs ensures q <= dir <==> q == dir || q <= Parent(dir) {
          PrefixOfParent(dir, q);
        }
        PrefixOfParent(dir, d);
        assert forall q :: q in u.files.Keys + u.dirs <==> q in t.files.Keys + t.dirs && q != dir;
      }
    } else if dir != [] {
      var name :| name in t.Entries(dir);
      var q :| q in t.files.Keys + t.dirs && q != [] && Parent(q) == dir && Name(q) == name;
      assert !(q <= dir);
      assert d <= dir ==> Below(q, d);
    }
  }

  lemma NothingBelow(t: Files, dir: Path)
    requires t.WellFormed() && t.Entries(dir) == {}
    ensures forall q | q in t.files.Keys + t.dirs :: !Below(q, dir)
  {
    forall q | q in t.files.Keys + t.dirs ensures !Below(q, dir) {
      if Below(q, dir) {
        ChildTowards(t, q, dir);
      }
    }
  }

  lemma PrefixOfParent(dir: Path, q: Path)
    requires dir != []
    ensures q <= dir <==> q == dir || q <= Parent(dir)
  {
  }

  // ---- What a request does ----

  /** A delete removes the file its key names, and no other file. */
  lemma DeleteFiles(t: Files, key: Text)
    requires t.WellFormed() && IsNormal(key)
    ensures Delete(t, key).WellFormed()
    ensures Delete(t, key).files == if IsFolderKey(key) then t.files else t.files - {PathOfObject(key)}
  {
    var p := PathOfObject(key);
    if Exists(t, p) {
      RemoveIsWellFormed(t, key);
      PruneIsWellFormed(RemoveObject(t, key), Parent(p));
      if p in t.dirs {
        assert p !in t.files;
      }
    }
  }

  lemma RemoveIsWellFormed(t: Files, key: Text)
    requires t.WellFormed() && IsNormal(key)
    ensures RemoveObject(t, key).WellFormed()
  {
    var p, u := PathOfObject(key), RemoveObject(t, key);
    if IsFolderKey(key) {
      if IsEmptyDir(t, p) {
        PruneStepIsWellFormed(t, p);
      }
    } else {
      forall q | q in u.files.Keys + u.dirs ensures ValidPath(q) && u.IsDirectory(Parent(q)) {
        assert q in t.files.Keys + t.dirs;
      }
    }
  }

  lemma DeleteLeavesNoPhantoms(t: Files, key: Text)
    requires t.WellFormed() && NoPhantoms(t) && IsNormal(key)
    ensures NoPhantoms(Delete(t, key))
  {
    var p, u := PathOfObject(key), RemoveObject(t, key);
    if Exists(t, p) {
      RemoveIsWellFormed(t, key);
      assert p in t.files.Keys + t.dirs;
      if IsFolderKey(key) && IsEmptyDir(t, p) {
        EmptyIsNotBacked(t, p);
      } else {
        forall d | d in u.dirs ensures Backed(u, d) || d <= Parent(p) {
          var f :| f in t.files && Below(f, d);
          if f == p {
            PrefixOfParent(p, d);
          } else {
            assert f in u.files;
          }
        }
        PruneLeavesNoPhantoms(u, Parent(p));
      }
    }
  }

  /** Without phantoms, a put is refused exactly when a key is stored above or below the one it names. */
  lemma PutRefusedIff(t: Files, p: Path, body: Text)
    requires t.WellFormed() && NoPhantoms(t) && ValidPath(p)
    ensures PutFile(t, p, body).None? <==> exists f :: f in t.files && (Below(f, p) || Below(p, f))
  {
    if p in t.dirs {
      assert Backed(t, p);
    }
    forall f | f in t.files ensures (Below(f, p) ==> p in t.dirs) && (Below(p, f) ==> f in Chain(Parent(p))) {
      FileInTheWay(t, p, f);
    }
  }

  lemma FileInTheWay(t: Files, p: Path, f: Path)
    requires t.WellFormed() && ValidPath(p) && f in t.files
    ensures Below(f, p) ==> p in t.dirs
    ensures Below(p, f) ==> f in Chain(Parent(p))
  {
    assert f in t.files.Keys + t.dirs;
    if Below(f, p) {
      AncestorsAreDirectories(t, f, p);
    } else if Below(p, f) {
      assert f == Parent(p)[..|f|];
    }
  }

  // ---- Runs ----

  datatype Request = Put(key: Text, body: Text) | DeleteOne(key: Text) | DeleteMany(keys: seq<Text>)
  {
    predicate Normal() {
      match this
      case Put(key, _) => IsNormal(key) && !IsFolderKey(key)
      case DeleteOne(key) => IsNormal(key)
      case DeleteMany(keys) => forall k | k in keys :: IsNormal(k)
    }

    predicate Names(p: Path) {
      match this
      case Put(key, _) => PathOfObject(key) == p
      case DeleteOne(key) => PathOfObject(key) == p
      case DeleteMany(keys) => exists k | k in keys :: PathOfObject(k) == p
    }
  }

  function Serve(t: Files, r: Request): Files
    requires r.Normal()
  {
    match r
    case Put(key, body) => var u := PutFile(t, PathOfObject(key), body); if u.Some? then u.value else t
    case DeleteOne(key) => Delete(t, key)
    case DeleteMany(keys) => DeleteAll(t, keys)
  }

  lemma {:induction false} DeleteAllKeeps(t: Files, keys: seq<Text>, p: Path)
    requires t.WellFormed() && forall k | k in keys :: IsNormal(k)
    ensures var u := DeleteAll(t, keys);
      && u.WellFormed() && (NoPhantoms(t) ==> NoPhantoms(u)) && u.files.Keys <= t.files.Keys
      && (p in u.files <==> p in t.files && forall k | k in keys :: IsFolderKey(k) || PathOfObject(k) != p)
      && (p in u.files ==> u.files[p] == t.files[p])
  {
    if keys != [] {
      var front, key := keys[..|keys| - 1], keys[|keys| - 1];
      assert keys == front + [key];
      DeleteAllKeeps(t, front, p);
      DeleteFiles(DeleteAll(t, front), key);
      if NoPhantoms(t) {
        DeleteLeavesNoPhantoms(DeleteAll(t, front), key);
      }
    }
  }

  /** A request changes the bytes of no key it does not name, and leaves no phantom directories. */
  lemma ServeKeeps(t: Files, r: Request, p: Path)
    requires t.WellFormed() && r.Normal()
    ensures Serve(t, r).WellFormed()
    ensures NoPhantoms(t) ==> NoPhantoms(Serve(t, r))
    ensures !r.Names(p) ==> (p in t.files <==> p in Serve(t, r).files) && (p in t.files ==> Serve(t, r).files[p] == t.files[p])
  {
    match r
    case Put(key, body) =>
      var q := PathOfObject(key);
      if PutFile(t, q, body).Some? {
        PutFileIsWellFormed(t, q, body);
        if NoPhantoms(t) {
          PutFileLeavesNoPhantoms(t, q, body);
        }
      }
    case DeleteOne(key) =>
      DeleteFiles(t, key);
      if NoPhantoms(t) {
        DeleteLeavesNoPhantoms(t, key);
      }
    case DeleteMany(keys) => DeleteAllKeeps(t, keys, p);
  }

  ghost predicate IsRun(trees: seq<Files>, requests: seq<Request>) {
    && |trees| == |requests| + 1
    && trees[0] == Tree(map[], {})
    && (forall i | 0 <= i < |requests| :: requests[i].Normal())
    && forall i | 0 <= i < |requests| :: trees[i + 1] == Serve(trees[i], requests[i])
  }

  /** Whatever was put and deleted: every directory of the bucket has a file beneath it. */
  lemma {:induction false} NoPhantomsAlways(trees: seq<Files>, requests: seq<Request>, i: nat)
    requires IsRun(trees, requests) && i < |trees|
    ensures trees[i].WellFormed() && NoPhantoms(trees[i])
  {
    if i > 0 {
      NoPhantomsAlways(trees, requests, i - 1);
      ServeKeeps(trees[i - 1], requests[i - 1], []);
    }
  }

  // ---- A flat store ----

  /** A key above or below `p` is stored; on disk the two cannot live together. */
  predicate Conflicts(store: map<Path, Text>, p: Path) {
    exists f | f in store :: Below(f, p) || Below(p, f)
  }

  /** What a request makes of a plain map from keys to bytes. */
  function ServeFlat(store: map<Path, Text>, r: Request): map<Path, Text> {
    match r
    case Put(key, body) => if Conflicts(store, PathOfObject(key)) then store else store[PathOfObject(key) := body]
    case DeleteOne(key) => if IsFolderKey(key) then store else store - {PathOfObject(key)}
    case DeleteMany(keys) => store - (set k | k in keys && !IsFolderKey(k) :: PathOfObject(k))
  }

  function Store(requests: seq<Request>, i: nat): map<Path, Text>
    requires i <= |requests|
  {
    if i == 0 then map[] else ServeFlat(Store(requests, i - 1), requests[i - 1])
  }

  lemma DeleteAllFiles(t: Files, keys: seq<Text>)
    requires t.WellFormed() && forall k | k in keys :: IsNormal(k)
    ensures DeleteAll(t, keys).files == t.files - (set k | k in keys && !IsFolderKey(k) :: PathOfObject(k))
  {
    var u, gone := DeleteAll(t, keys), set k | k in keys && !IsFolderKey(k) :: PathOfObject(k);
    DeleteAllKeeps(t, keys, []);
    forall p | p in t.files ensures (p in u.files <==> p !in gone) && (p in u.files ==> u.files[p] == t.files[p]) {
      DeleteAllKeeps(t, keys, p);
    }
    assert u.files.Keys == t.files.Keys - gone;
  }

  lemma ServeIsFlat(t: Files, r: Request)
    requires t.WellFormed() && NoPhantoms(t) && r.Normal()
    ensures Serve(t, r).files == ServeFlat(t.files, r)
  {
    match r
    case Put(key, body) => PutRefusedIff(t, PathOfObject(key), body);
    case DeleteOne(key) => DeleteFiles(t, key);
    case DeleteMany(keys) => DeleteAllFiles(t, keys);
  }

  /** The tree holds just what a plain map would, but that keys above or below a stored one are refused. */
  lemma {:induction false} TreeIsFlatStore(trees: seq<Files>, requests: seq<Request>, i: nat)
    requires IsRun(trees, requests) && i <= |requests|
    ensures trees[i].files == Store(requests, i)
  {
    if i > 0 {
      TreeIsFlatStore(trees, requests, i - 1);
      NoPhantomsAlways(trees, requests, i - 1);
      ServeIsFlat(trees[i - 1], requests[i - 1]);
    }
  }

  /** The bucket directory has entries exactly while it has files. */
  lemma RootIsEmptyIff(t: Files)
    requires t.WellFormed() && NoPhantoms(t)
    ensures t.Entries([]) == {} <==> t.files == map[]
  {
    if t.files == map[] {
      assert forall d | d in t.dirs :: Backed(t, d);
      assert t.dirs == {};
      assert t.Entries([]) == {};
    } else {
      var f :| f in t.files;
      assert f in t.files.Keys + t.dirs;
      ChildTowards(t, f, []);
    }
  }

  /** So the bucket itself can be deleted exactly when no key is left. */
  lemma EmptyBucketIffNoKeys(trees: seq<Files>, requests: seq<Request>, i: nat)
    requires IsRun(trees, requests) && i < |trees|
    ensures IsEmptyDir(trees[i], []) <==> trees[i].files == map[]
  {
    NoPhantomsAlways(trees, requests, i);
    RootIsEmptyIff(trees[i]);
  }

  /** Deleting every key, in one batch and in any order, empties the bucket. */
  lemma DeletingAllKeysEmptiesBucket(trees: seq<Files>, requests: seq<Request>, i: nat)
    requires IsRun(trees, requests) && i < |requests| && requests[i].DeleteMany?
    requires forall p | p in trees[i].files :: exists k | k in requests[i].keys :: !IsFolderKey(k) && PathOfObject(k) == p
    ensures trees[i + 1].files == map[] && IsEmptyDir(trees[i + 1], [])
  {
    NoPhantomsAlways(trees, requests, i);
    forall p | p in trees[i].files ensures p !in trees[i + 1].files {
      DeleteAllKeeps(trees[i], requests[i].keys, p);
    }
    DeleteAllKeeps(trees[i], requests[i].keys, []);
    assert trees[i + 1].files.Keys == {};
    EmptyBucketIffNoKeys(trees, requests, i + 1);
  }

  // ---- Folder placeholders ----

  /** A folder that was put on purpose goes when the last object in it is deleted. */
  lemma PlaceholderIsPruned(folder: Text, name: Text, body: Text)
    requires ValidName(folder) && ValidName(name)
    ensures var made := MakeDirs(Tree(map[], {}), [folder]);
      && made.Some? && [folder] in made.value.dirs
      && var put := PutFile(made.value, [folder, name], body);
      && put.Some? && [folder] in put.value.dirs
      && IsNormal(KeyOf([folder, name])) && Delete(put.value, KeyOf([folder, name])) == Tree(map[], {})
  {
    var d, p := [folder], [folder, name];
    var key := KeyOf(p);
    assert Chain(d) == {d} by {
      assert d == d[..1];
    }
    assert Parent(p) == d;
    PathOfKey(p);
    KeyEnd(folder, name);
    var put: Files := Tree(map[p := body], {d});
    var made: Files := Tree(map[], {d});
    assert made.dirs + Chain(d) == made.dirs;
    assert MakeDirs(made, d) == Some(made);
    assert |p| != |d| && p !in made.dirs;
    assert PutFile(made, p, body) == Some(put);
    var left: Files := Tree(map[], {d});
    assert RemoveObject(put, key) == left;
    assert left.Entries(d) == {};
    assert left.(dirs := left.dirs - {d}) == Tree(map[], {});
    assert Prune(left, d) == Prune(Tree(map[], {}), []);
  }

  lemma MakeDirsIsWellFormed(t: Files, p: Path)
    requires t.WellFormed() && ValidPath(p) && MakeDirs(t, p).Some?
    ensures MakeDirs(t, p).value.WellFormed() && p in MakeDirs(t, p).value.dirs
  {
    var u := MakeDirs(t, p).value;
    assert p == p[..|p|] && p in Chain(p);
    forall q | q in u.files.Keys + u.dirs ensures ValidPath(q) && u.IsDirectory(Parent(q)) {
      if q in Chain(p) {
        ChainIsValid(p, q);
      } else {
        assert q in t.files.Keys + t.dirs;
      }
    }
  }

  /** A folder that was put where nothing was goes again, with all that was made for it, when it is deleted while empty. */
  lemma FolderComesAndGoes(t: Files, key: Text)
    requires t.WellFormed() && NoPhantoms(t) && IsNormal(key) && IsFolderKey(key)
    requires !Exists(t, PathOfObject(key)) && MakeDirs(t, PathOfObject(key)).Some?
    ensures Delete(MakeDirs(t, PathOfObject(key)).value, key) == t
  {
    var p := PathOfObject(key);
    var made := MakeDirs(t, p).value;
    MakeDirsIsWellFormed(t, p);
    NothingIn(t, made, p);
    var left := made.(dirs := made.dirs - {p});
    assert RemoveObject(made, key) == left;
    PruneStepIsWellFormed(made, p);
    forall d | d in left.dirs ensures Backed(left, d) || d <= Parent(p) {
      if d in t.dirs {
        var f :| f in t.files && Below(f, d);
        assert f in left.files;
      } else {
        ChainIsValid(p, d);
        assert d <= p && d != p;
      }
    }
    assert p in made.files.Keys + made.dirs;
    assert left.IsDirectory(Parent(p));
    PruneLeavesNoPhantoms(left, Parent(p));
    PruneIsWellFormed(left, Parent(p));
    var u := Prune(left, Parent(p));
    forall d | d in t.dirs ensures d in u.dirs {
      var f :| f in t.files && Below(f, d);
      assert f in left.files && d in left.dirs;
    }
    forall d | d in u.dirs ensures d in t.dirs {
      var f :| f in u.files && Below(f, d);
      assert f in t.files.Keys + t.dirs && d in u.files.Keys + u.dirs;
      AncestorsAreDirectories(t, f, d);
    }
    assert u.dirs == t.dirs;
  }

  lemma NothingIn(t: Files, made: Files, p: Path)
    requires t.WellFormed() && ValidPath(p) && !Exists(t, p)
    requires MakeDirs(t, p) == Some(made)
    ensures IsEmptyDir(made, p)
  {
    assert p == p[..|p|] && p in Chain(p);
    forall q | q in made.files.Keys + made.dirs && q != [] ensures Parent(q) != p {
      if q in t.files.Keys + t.dirs {
        assert t.IsDirectory(Parent(q));
      }
    }
  }

  /** A folder that has anything in it outlasts its deletion, and so does everything else. */
  lemma FolderWithEntriesStays(t: Files, key: Text)
    requires t.WellFormed() && IsNormal(key) && IsFolderKey(key) && PathOfObject(key) in t.dirs && t.Entries(PathOfObject(key)) != {}
    ensures Delete(t, key) == t
  {
    var p := PathOfObject(key);
    assert p in t.files.Keys + t.dirs;
    assert Name(p) in t.Entries(Parent(p));
  }

  lemma KeyEnd(folder: Text, name: Text)
    requires ValidName(folder) && ValidName(name)
    ensures !IsFolderKey(KeyOf([folder, name]))
  {
    assert [folder, name][1..] == [name];
    assert Join([name], SLASH) == name;
    assert KeyOf([folder, name]) == folder + [SLASH] + name;
    assert name[|name| - 1] in name;
  }
}
