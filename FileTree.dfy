/** The directory hierarchy of Main.kt as an arena: directory `i` is slot `i`
    of a sequence, slot 0 is the root, every directory names its parent by
    index and lists its children by index. A directory is always created after
    its parent, so a child's index is larger than its parent's; that ordering
    is both the tree invariant and the termination measure of `Size` and of
    the preorder walk. */
module FileTree {
  import opened Wrappers
  import P = Parser

  const TotalDiskSpace: int := 70_000_000
  const RequiredSpaceForUpdate: int := 30_000_000
  const MaxOccupiedSpace: int := TotalDiskSpace - RequiredSpaceForUpdate

  /** A file entry; `parent` is the arena index of its directory. */
  datatype File = File(parent: nat, size: nat, name: string)

  /** A directory record; `directories` holds the arena indices of its children
      in the order they were listed. */
  datatype Directory = Directory(parent: Option<nat>, name: string, directories: seq<nat>, files: seq<File>)

  /** The replay state: the arena and the cursor (`currentDir`). */
  datatype Tree = Tree(dirs: seq<Directory>, cursor: nat)

  /** The single root directory the program starts from. */
  const RootDir: Directory := Directory(None, "/", [], [])

  function Initial(): (t: Tree)
    ensures ValidTree(t) && |t.dirs| == 1
  {
    Tree([RootDir], 0)
  }

  predicate Increasing(s: seq<nat>) { forall a, b :: 0 <= a < b < |s| ==> s[a] < s[b] }

  /** Directory `i` is linked into the tree: the root alone has no parent, any
      other directory has an earlier parent that lists it, its children come
      after it and name it as their parent, and its files name it too. */
  predicate DirOk(ds: seq<Directory>, i: nat)
    requires i < |ds|
  {
    var d := ds[i];
    (if i == 0 then d.parent.None?
     else d.parent.Some? && d.parent.value < i && i in ds[d.parent.value].directories)
    && (forall k :: 0 <= k < |d.directories| ==> i < d.directories[k] < |ds| && ds[d.directories[k]].parent == Some(i))
    && Increasing(d.directories)
    && (forall k :: 0 <= k < |d.files| ==> d.files[k].parent == i)
  }

  predicate WellFormed(ds: seq<Directory>) {
    |ds| > 0 && forall i :: 0 <= i < |ds| ==> DirOk(ds, i)
  }

  predicate ValidTree(t: Tree) { WellFormed(t.dirs) && t.cursor < |t.dirs| }

  /** Index of the parent of a directory other than the root. */
  function ParentOf(ds: seq<Directory>, x: nat): (p: nat)
    requires WellFormed(ds) && 0 < x < |ds|
    ensures p < x && x in ds[p].directories
  {
    assert DirOk(ds, x);
    ds[x].parent.value
  }

  /** The children of directory `i`, each after `i` in the arena. */
  function Children(ds: seq<Directory>, i: nat): (cs: seq<nat>)
    requires WellFormed(ds) && i < |ds|
    ensures forall k :: 0 <= k < |cs| ==> i < cs[k] < |ds| && ds[cs[k]].parent == Some(i)
    ensures Increasing(cs)
  {
    assert DirOk(ds, i);
    ds[i].directories
  }

  // ---------------------------------------------------------------------
  // Sizes (Directory.size)

  /** Total size of the files `fs`; no file weighs more than the total. */
  function FilesSize(fs: seq<File>): (r: nat)
    ensures forall k :: 0 <= k < |fs| ==> fs[k].size <= r
  {
    if fs == [] then 0 else FilesSize(fs[..|fs| - 1]) + fs[|fs| - 1].size
  }

  /** Size of directory `i`: its child directories' sizes plus its files' sizes. */
  function Size(ds: seq<Directory>, i: nat): nat
    requires WellFormed(ds) && i < |ds|
    decreases |ds| - i, 1
  {
    DirsSize(ds, i, |Children(ds, i)|) + FilesSize(ds[i].files)
  }

  /** Sum of the sizes of the first `k` children of `i`. */
  function DirsSize(ds: seq<Directory>, i: nat, k: nat): nat
    requires WellFormed(ds) && i < |ds| && k <= |Children(ds, i)|
    decreases |ds| - i, 0, k
  {
    if k == 0 then 0 else DirsSize(ds, i, k - 1) + Size(ds, Children(ds, i)[k - 1])
  }

  // ---------------------------------------------------------------------
  // Navigation (Directory.changeDir)

  /** Position of the first directory in `cs` named `n`. */
  function FirstNamed(ds: seq<Directory>, cs: seq<nat>, n: string): (r: Option<nat>)
    requires forall k :: 0 <= k < |cs| ==> cs[k] < |ds|
    ensures r.Some? ==> r.value < |cs| && ds[cs[r.value]].name == n
    ensures r.Some? ==> forall k :: 0 <= k < r.value ==> ds[cs[k]].name != n
    ensures r.None? <==> forall k :: 0 <= k < |cs| ==> ds[cs[k]].name != n
  {
    if cs == [] then None
    else if ds[cs[0]].name == n then Some(0)
    else match FirstNamed(ds, cs[1..], n)
      case None => None
      case Some(k) => Some(k + 1)
  }

  /** The directory `p` leads to from `cur`: the root, the parent (none for the
      root), or the first child with the given name (none if there is none). */
  function ChangeDir(ds: seq<Directory>, cur: nat, p: P.Path): (r: Option<nat>)
    requires WellFormed(ds) && cur < |ds|
    ensures r.Some? ==> r.value < |ds|
    ensures p.Root? ==> r == Some(0)
    ensures p.Up? ==> (r.None? <==> cur == 0)
    ensures p.Up? && r.Some? ==> r.value < cur && cur in ds[r.value].directories
    ensures p.Directory? ==>
      (r.None? <==> forall k :: 0 <= k < |Children(ds, cur)| ==> ds[Children(ds, cur)[k]].name != p.name)
    ensures p.Directory? && r.Some? ==>
      exists k :: 0 <= k < |Children(ds, cur)| && r.value == Children(ds, cur)[k] && ds[r.value].name == p.name
        && forall j :: 0 <= j < k ==> ds[Children(ds, cur)[j]].name != p.name
  {
    match p
    case Root => Some(0)
    case Up => if cur == 0 then None else Some(ParentOf(ds, cur))
    case Directory(n) =>
      var cs := Children(ds, cur);
      match FirstNamed(ds, cs, n)
      case None => None
      case Some(k) => Some(cs[k])
  }

  // ---------------------------------------------------------------------
  // Replaying one line (the body of the loop in main)

  /** `currentDir.files.add(...)`: a file whose parent is the cursor. */
  function AddFile(t: Tree, size: nat, name: string): (r: Tree)
    requires ValidTree(t)
    ensures ValidTree(r)
  {
    var d := t.dirs[t.cursor];
    var r := Tree(t.dirs[t.cursor := d.(files := d.files + [File(t.cursor, size, name)])], t.cursor);
    AddFileKeepsTree(t, size, name, r);
    r
  }

  /** `currentDir.directories.add(...)`: a new empty directory whose parent is
      the cursor, appended without looking for a sibling of the same name. */
  function AddDirectory(t: Tree, name: string): (r: Tree)
    requires ValidTree(t)
    ensures ValidTree(r)
  {
    var d := t.dirs[t.cursor];
    var r := Tree(t.dirs[t.cursor := d.(directories := d.directories + [|t.dirs|])]
                  + [Directory(Some(t.cursor), name, [], [])], t.cursor);
    AddDirectoryKeepsTree(t, name, r);
    r
  }

  lemma AddFileKeepsTree(t: Tree, size: nat, name: string, r: Tree)
    requires ValidTree(t)
    requires var d := t.dirs[t.cursor];
      r == Tree(t.dirs[t.cursor := d.(files := d.files + [File(t.cursor, size, name)])], t.cursor)
    ensures ValidTree(r)
  {
    forall i | 0 <= i < |r.dirs| ensures DirOk(r.dirs, i) {
      assert DirOk(t.dirs, i);
    }
  }

  lemma AddDirectoryKeepsTree(t: Tree, name: string, r: Tree)
    requires ValidTree(t)
    requires var d := t.dirs[t.cursor];
      r == Tree(t.dirs[t.cursor := d.(directories := d.directories + [|t.dirs|])]
                + [Directory(Some(t.cursor), name, [], [])], t.cursor)
    ensures ValidTree(r)
  {
    var n := |t.dirs|;
    forall i | 0 <= i < |r.dirs| ensures DirOk(r.dirs, i) {
      if i < n {
        assert DirOk(t.dirs, i);
        if i > 0 {
          var p := t.dirs[i].parent.value;
          assert r.dirs[i].parent == t.dirs[i].parent;
          assert i in t.dirs[p].directories;
          assert t.dirs[p].directories <= r.dirs[p].directories;
        }
      } else {
        assert DirOk(t.dirs, t.cursor);
      }
    }
  }

  /** Replaying one parsed line; `None` when `cd` cannot be resolved. */
  function Apply(t: Tree, line: P.Line): (r: Option<Tree>)
    requires ValidTree(t)
    ensures r.Some? ==> ValidTree(r.value)
    ensures r.None? <==> line.Cd? && ChangeDir(t.dirs, t.cursor, line.path).None?
    ensures line.Ls? ==> r == Some(t)
    ensures line.Cd? && r.Some? ==> r.value.dirs == t.dirs && Some(r.value.cursor) == ChangeDir(t.dirs, t.cursor, line.path)
  {
    match line
    case Cd(p) =>
      (match ChangeDir(t.dirs, t.cursor, p)
       case None => None
       case Some(c) => Some(Tree(t.dirs, c)))
    case Ls => Some(t)
    case FileItem(size, name) => Some(AddFile(t, size, name))
    case DirectoryItem(name) => Some(AddDirectory(t, name))
  }

  /** Replaying a whole transcript, left to right; `None` as soon as a line fails. */
  function ReplayAll(t: Tree, lines: seq<P.Line>): (r: Option<Tree>)
    requires ValidTree(t)
    ensures r.Some? ==> ValidTree(r.value)
    decreases |lines|
  {
    if lines == [] then Some(t)
    else match Apply(t, lines[0])
      case None => None
      case Some(u) => ReplayAll(u, lines[1..])
  }

  // ---------------------------------------------------------------------
  // Preorder walk (storeSizeAndSubdirsSizes)

  /** Directory `i`, then the preorder walks of its children in list order. */
  function Preorder(ds: seq<Directory>, i: nat): (r: seq<nat>)
    requires WellFormed(ds) && i < |ds|
    ensures r != [] && r[0] == i
    ensures forall k :: 0 <= k < |r| ==> i <= r[k] < |ds|
    ensures forall x :: x in r ==> i <= x < |ds|
    decreases |ds| - i, 1
  {
    [i] + Subtrees(ds, i, |Children(ds, i)|)
  }

  /** The preorder walks of the first `k` children of `i`, one after another. */
  function Subtrees(ds: seq<Directory>, i: nat, k: nat): (r: seq<nat>)
    requires WellFormed(ds) && i < |ds| && k <= |Children(ds, i)|
    ensures forall k :: 0 <= k < |r| ==> i < r[k] < |ds|
    ensures forall x :: x in r ==> i < x < |ds|
    decreases |ds| - i, 0, k
  {
    if k == 0 then [] else Subtrees(ds, i, k - 1) + Preorder(ds, Children(ds, i)[k - 1])
  }

  /** The sizes of the directories `xs`, in order. */
  function SizesOf(ds: seq<Directory>, xs: seq<nat>): (r: seq<int>)
    requires WellFormed(ds) && forall k :: 0 <= k < |xs| ==> xs[k] < |ds|
    ensures |r| == |xs| && forall k :: 0 <= k < |xs| ==> r[k] == Size(ds, xs[k])
  {
    if xs == [] then [] else [Size(ds, xs[0])] + SizesOf(ds, xs[1..])
  }

  // ---------------------------------------------------------------------
  // The query (main, after the replay)

  /** `filter { it >= threshold }.min()`: the least element of `xs` that is at
      least `threshold`, or `None` when there is none (where `min()` throws). */
  function MinAtLeast(xs: seq<int>, threshold: int): (r: Option<int>)
    ensures r.None? <==> forall k :: 0 <= k < |xs| ==> xs[k] < threshold
    ensures r.Some? ==> r.value in xs && r.value >= threshold
    ensures r.Some? ==> forall k :: 0 <= k < |xs| && xs[k] >= threshold ==> r.value <= xs[k]
  {
    if xs == [] then None
    else match MinAtLeast(xs[1..], threshold)
      case None => if xs[0] >= threshold then Some(xs[0]) else None
      case Some(m) => if threshold <= xs[0] < m then Some(xs[0]) else Some(m)
  }

  /** Deleting `freed` bytes from a disk holding the whole hierarchy leaves at
      least the space the update needs. */
  predicate FreesEnough(ds: seq<Directory>, freed: int)
    requires WellFormed(ds)
  {
    TotalDiskSpace - (Size(ds, 0) - freed) >= RequiredSpaceForUpdate
  }

  /** `minSizeToBeDeleted`: exactly the sizes at or above it free enough space,
      and the root's own size is one of them. */
  function Threshold(ds: seq<Directory>): (t: int)
    requires WellFormed(ds)
    ensures t <= Size(ds, 0)
    ensures forall freed :: FreesEnough(ds, freed) <==> freed >= t
  {
    Size(ds, 0) - MaxOccupiedSpace
  }

  /** The size of the smallest directory whose deletion frees enough space. */
  function SmallestDeletable(ds: seq<Directory>): Option<int>
    requires WellFormed(ds)
  {
    MinAtLeast(SizesOf(ds, Preorder(ds, 0)), Threshold(ds))
  }

  /** `input.split("\n").map { parse(it) }`: every line parsed, or a failure
      if any line fails. */
  function ParseAll(input: seq<string>): (r: Result<seq<P.Line>>)
    ensures r.Ok? <==> forall k :: 0 <= k < |input| ==> P.Parse(input[k]).Ok?
    ensures r.Ok? ==> |r.value| == |input| && forall k :: 0 <= k < |input| ==> P.Parse(input[k]) == Ok(r.value[k])
  {
    if input == [] then Ok([])
    else match P.Parse(input[0])
      case Failure => Failure
      case Ok(l) =>
        match ParseAll(input[1..])
        case Failure => Failure
        case Ok(ls) => Ok([l] + ls)
  }

  /** The whole program: parse, replay from the root, answer the query. */
  function Solve(input: seq<string>): Result<int> {
    match ParseAll(input)
    case Failure => Failure
    case Ok(lines) =>
      match ReplayAll(Initial(), lines)
      case None => Failure
      case Some(t) =>
        match SmallestDeletable(t.dirs)
        case None => Failure
        case Some(v) => Ok(v)
  }
}
