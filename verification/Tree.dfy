/** A bucket on disk: files and directories below the bucket root, named by path. */
module Tree {
  import opened Bytes
  import opened Utf8

  type Path = seq<Text>

  /** A directory entry's name: never empty, never `.` or `..`, never holding a separator. */
  predicate ValidName(name: Text) {
    name != [] && SLASH !in name && name != [DOT] && name != [DOT, DOT]
  }

  predicate ValidPath(p: Path) {
    p != [] && forall n | n in p :: ValidName(n)
  }

  function Parent(p: Path): Path
    requires p != []
  {
    p[..|p| - 1]
  }

  function Name(p: Path): Text
    requires p != []
  {
    p[|p| - 1]
  }

  /** The bucket root is the empty path and is not listed in `dirs`. */
  datatype Tree<V> = Tree(files: map<Path, V>, dirs: set<Path>) {

    ghost predicate WellFormed() {
      && files.Keys !! dirs
      && forall p | p in files.Keys + dirs :: ValidPath(p) && IsDirectory(Parent(p))
    }

    predicate IsDirectory(p: Path) {
      p == [] || p in dirs
    }

    /** The names `read_dir` yields, in no particular order. */
    function Entries(dir: Path): set<Text> {
      set p | p in files.Keys + dirs && p != [] && Parent(p) == dir :: Name(p)
    }
  }

  /** The object key of a path: its names joined with `/`. */
  function KeyOf(p: Path): Text {
    Join(p, SLASH)
  }

  /** The path a key names. */
  function PathOf(key: Text): Path {
    Split(key, SLASH)
  }

  lemma PathOfKey(p: Path)
    requires ValidPath(p)
    ensures PathOf(KeyOf(p)) == p
  {
    SplitJoin(p, SLASH);
  }

  /** `p` lies strictly below `dir`. */
  predicate Below(p: Path, dir: Path) {
    dir <= p && |dir| < |p|
  }

  /** The key of what lies in a directory is the directory's, a slash, and the name. */
  lemma KeyOfChild(dir: Path, name: Text)
    ensures KeyOf(dir + [name]) == if dir == [] then name else KeyOf(dir) + ['/' as int as Byte] + name
  {
    JoinSnoc(dir, name, SLASH);
  }

  lemma KeyBelow(p: Path, dir: Path)
    requires dir != [] && Below(p, dir)
    ensures KeyOf(dir) + [SLASH] <= KeyOf(p)
  {
    JoinPrefix(dir, p, SLASH);
  }

  /** In a well-formed tree everything above an entry is a directory. */
  lemma {:induction false} AncestorsAreDirectories<V>(t: Tree<V>, p: Path, dir: Path)
    requires t.WellFormed() && p in t.files.Keys + t.dirs && Below(p, dir)
    ensures t.IsDirectory(dir)
    decreases |p|
  {
    if Parent(p) != dir {
      AncestorsAreDirectories(t, Parent(p), dir);
    }
  }
}
