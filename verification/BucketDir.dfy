/** A bucket directory and the requests that put and delete in it. */
module BucketDir {
  import opened Bytes
  import opened Tree
  import opened Namespace

  datatype Result = Done | NoSuchBucket | NoSuchKey | PreconditionFailed | UnexpectedContent | BucketNotEmpty | InternalError

  class Bucket {
    var tree: Files
    var present: bool

    /** The tree is one, and no directory in it is without a file beneath it. */
    ghost predicate Valid()
      reads this
    {
      tree.WellFormed() && NoPhantoms(tree)
    }

    /** A folder key makes directories; any other key puts a file, which may be asked to be a new one. */
    method PutObject(key: Text, contentLength: Option<nat>, body: Text, onlyIfAbsent: bool) returns (r: Result)
      requires IsNormal(key)
      modifies this`tree
      ensures var p := PathOfObject(key);
        var put := if IsFolderKey(key) then MakeDirs(old(tree), p) else PutFile(old(tree), p, body);
        if onlyIfAbsent && Exists(old(tree), p) then r == PreconditionFailed && tree == old(tree)
        else if IsFolderKey(key) && contentLength.Some? && contentLength.value > 0 then r == UnexpectedContent && tree == old(tree)
        else if put.Some? then r == Done && tree == put.value
        else r == InternalError && tree == old(tree)
      ensures old(Valid()) && !IsFolderKey(key) ==> var p, before := PathOfObject(key), old(tree.files);
        && Valid()
        && (r == PreconditionFailed <==> onlyIfAbsent && (p in before || exists f :: f in before && Below(f, p)))
        && (r == InternalError <==> r != PreconditionFailed && Conflicts(before, p))
        && (r == Done || r == InternalError ==> tree == Serve(old(tree), Put(key, body)))
        && tree.files == if r == Done then before[p := body] else before
    {
      if Valid() && !IsFolderKey(key) {
        PutOnValid(tree, key, body);
      }
      var p := PathOfObject(key);
      if onlyIfAbsent && Exists(tree, p) {
        return PreconditionFailed;
      }
      if IsFolderKey(key) {
        if contentLength.Some? && contentLength.value > 0 {
          return UnexpectedContent;
        }
        var made := MakeDirs(tree, p);
        if made.None? {
          return InternalError;
        }
        tree := made.value;
        return Done;
      }
      var put := PutFile(tree, p, body);
      if put.None? {
        return InternalError;
      }
      tree := put.value;
      r := Done;
    }

    /** Walks up from `dir`, removing directories until one cannot be removed or the bucket root is reached. */
    method PruneEmptyDirs(dir: Path)
      modifies this`tree
      ensures tree == Prune(old(tree), dir)
    {
      var d := dir;
      while d != []
        invariant Prune(tree, d) == Prune(old(tree), dir)
        decreases |d|
      {
        if !IsEmptyDir(tree, d) {
          break;
        }
        tree := tree.(dirs := tree.dirs - {d});
        d := Parent(d);
      }
    }

    method DeleteObject(key: Text) returns (r: Result)
      requires IsNormal(key)
      modifies this`tree
      ensures r == if Exists(old(tree), PathOfObject(key)) then Done else NoSuchKey
      ensures tree == Delete(old(tree), key)
      ensures old(Valid()) ==> var p, before := PathOfObject(key), old(tree.files);
        && Valid() && tree.files == ServeFlat(before, DeleteOne(key))
        && (r == NoSuchKey <==> p !in before && forall f | f in before :: !Below(f, p))
    {
      if Valid() {
        ServeOnValid(tree, DeleteOne(key));
        ExistsIff(tree, PathOfObject(key));
      }
      var p := PathOfObject(key);
      if !Exists(tree, p) {
        return NoSuchKey;
      }
      tree := RemoveObject(tree, key);
      PruneEmptyDirs(Parent(p));
      r := Done;
    }

    /** Keys that do not exist are reported as deleted, too. */
    method DeleteObjects(keys: seq<Text>, quiet: bool) returns (deleted: seq<Text>)
      requires forall k | k in keys :: IsNormal(k)
      modifies this`tree
      ensures tree == DeleteAll(old(tree), keys)
      ensures deleted == if quiet then [] else keys
      ensures old(Valid()) ==> Valid() && tree.files == ServeFlat(old(tree.files), DeleteMany(keys))
    {
      if Valid() {
        ServeOnValid(tree, DeleteMany(keys));
      }
      deleted := [];
      for i := 0 to |keys|
        invariant tree == DeleteAll(old(tree), keys[..i])
        invariant deleted == if quiet then [] else keys[..i]
      {
        assert keys[..i + 1][..i] == keys[..i];
        var p := PathOfObject(keys[i]);
        if Exists(tree, p) {
          tree := RemoveObject(tree, keys[i]);
          PruneEmptyDirs(Parent(p));
        }
        if !quiet {
          deleted := deleted + [keys[i]];
        }
      }
      assert keys[..|keys|] == keys;
    }

    /** A bucket is deleted exactly when no key is left in it. */
    method DeleteBucket() returns (r: Result)
      modifies this`present
      ensures r == if !old(present) then NoSuchBucket else if tree.Entries([]) != {} then BucketNotEmpty else Done
      ensures present == (old(present) && r != Done)
      ensures Valid() ==> (r == Done <==> old(present) && tree.files == map[])
    {
      if Valid() {
        RootIsEmptyIff(tree);
      }
      if !present {
        return NoSuchBucket;
      }
      if tree.Entries([]) != {} {
        return BucketNotEmpty;
      }
      present := false;
      r := Done;
    }
  }

  lemma ServeOnValid(t: Files, r: Request)
    requires t.WellFormed() && NoPhantoms(t) && r.Normal()
    ensures Serve(t, r).WellFormed() && NoPhantoms(Serve(t, r)) && Serve(t, r).files == ServeFlat(t.files, r)
  {
    ServeKeeps(t, r, []);
    ServeIsFlat(t, r);
  }

  /** What a put of a file does, in terms of the keys that are stored. */
  lemma PutOnValid(t: Files, key: Text, body: Text)
    requires t.WellFormed() && NoPhantoms(t) && IsNormal(key) && !IsFolderKey(key)
    ensures var p, u := PathOfObject(key), Serve(t, Put(key, body));
      && u.WellFormed() && NoPhantoms(u) && u.files == ServeFlat(t.files, Put(key, body))
      && (PutFile(t, p, body).None? <==> Conflicts(t.files, p))
      && (Exists(t, p) <==> p in t.files || exists f :: f in t.files && Below(f, p))
  {
    var p := PathOfObject(key);
    ServeOnValid(t, Put(key, body));
    PutRefusedIff(t, p, body);
    ExistsIff(t, p);
  }

  /** Without phantoms a path exists when it, or something below it, is stored. */
  lemma ExistsIff(t: Files, p: Path)
    requires t.WellFormed() && NoPhantoms(t) && ValidPath(p)
    ensures Exists(t, p) <==> p in t.files || exists f :: f in t.files && Below(f, p)
  {
    forall f | f in t.files && Below(f, p) ensures p in t.dirs {
      AncestorsAreDirectories(t, f, p);
    }
    assert p in t.dirs ==> Backed(t, p);
  }
}
