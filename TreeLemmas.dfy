/** What the replay and the size walk of Main.kt guarantee about the arena
    model in FileTree: the preorder walk visits every directory of a subtree
    exactly once, a directory's size is the total of the files in its subtree,
    each listing line changes exactly one directory, and the query answer is
    the least qualifying directory size. */
module TreeLemmas {
  import opened Wrappers
  import P = Parser
  import opened FileTree

  /** `x` is `a` or lies below it: following parents from `x` reaches `a`. */
  ghost predicate IsDescendant(ds: seq<Directory>, x: nat, a: nat)
    requires WellFormed(ds) && x < |ds|
    decreases x
  {
    x == a || (a < x && IsDescendant(ds, ParentOf(ds, x), a))
  }

  /** The directories of the subtree rooted at `i`. */
  ghost function Subtree(ds: seq<Directory>, i: nat): set<nat>
    requires WellFormed(ds) && i < |ds|
  {
    set x: nat | x < |ds| && IsDescendant(ds, x, i)
  }

  predicate Distinct(s: seq<nat>) { forall a, b :: 0 <= a < b < |s| ==> s[a] != s[b] }

  /** Total size of the files held directly by the directories `xs`. */
  function FilesTotal(ds: seq<Directory>, xs: seq<nat>): nat
    requires forall k :: 0 <= k < |xs| ==> xs[k] < |ds|
  {
    if xs == [] then 0 else FilesSize(ds[xs[0]].files) + FilesTotal(ds, xs[1..])
  }

  /** The arena `b` grew from `a` by appending only: no directory disappears or
      is renamed or moved, and child and file lists only grow at the end. */
  predicate Extends(a: seq<Directory>, b: seq<Directory>) {
    |a| <= |b| &&
    forall i :: 0 <= i < |a| ==>
      b[i].parent == a[i].parent && b[i].name == a[i].name &&
      a[i].directories <= b[i].directories && a[i].files <= b[i].files
  }

  // ---------------------------------------------------------------------
  // The descendant relation

  lemma {:induction false} DescendantTrans(ds: seq<Directory>, x: nat, m: nat, a: nat)
    requires WellFormed(ds) && x < |ds| && m < |ds|
    requires IsDescendant(ds, x, m) && IsDescendant(ds, m, a)
    ensures IsDescendant(ds, x, a)
    decreases x
  {
    if x != m {
      DescendantTrans(ds, ParentOf(ds, x), m, a);
    }
  }

  /** Below `i`, every proper descendant lies below one of `i`'s children. */
  lemma {:induction false} ChildOnPath(ds: seq<Directory>, x: nat, i: nat)
    requires WellFormed(ds) && x < |ds| && i < |ds|
    requires IsDescendant(ds, x, i) && x != i
    ensures exists k :: 0 <= k < |Children(ds, i)| && IsDescendant(ds, x, Children(ds, i)[k])
    decreases x
  {
    var p := ParentOf(ds, x);
    var cs := Children(ds, i);
    if p == i {
      var k :| 0 <= k < |cs| && cs[k] == x;
      assert IsDescendant(ds, x, cs[k]);
    } else {
      ChildOnPath(ds, p, i);
      var k :| 0 <= k < |cs| && IsDescendant(ds, p, cs[k]);
      assert IsDescendant(ds, x, cs[k]);
    }
  }

  /** No directory lies below two different siblings. */
  lemma {:induction false} SiblingsDisjoint(ds: seq<Directory>, x: nat, c1: nat, c2: nat)
    requires WellFormed(ds) && x < |ds| && 0 < c1 < |ds| && 0 < c2 < |ds| && c1 != c2
    requires ParentOf(ds, c1) == ParentOf(ds, c2)
    requires IsDescendant(ds, x, c1)
    ensures !IsDescendant(ds, x, c2)
    decreases x
  {
    if x != c1 && x != c2 {
      SiblingsDisjoint(ds, ParentOf(ds, x), c1, c2);
    }
  }

  /** Every directory lies below the root. */
  lemma {:induction false} RootReachesAll(ds: seq<Directory>, x: nat)
    requires WellFormed(ds) && x < |ds|
    ensures IsDescendant(ds, x, 0)
    decreases x
  {
    if x > 0 {
      RootReachesAll(ds, ParentOf(ds, x));
    }
  }

  // ---------------------------------------------------------------------
  // The preorder walk

  lemma {:induction false} InSubtrees(ds: seq<Directory>, i: nat, k: nat, x: nat)
    requires WellFormed(ds) && i < |ds| && k <= |Children(ds, i)|
    ensures x in Subtrees(ds, i, k) <==> exists j :: 0 <= j < k && x in Preorder(ds, Children(ds, i)[j])
    decreases k
  {
    if k > 0 {
      InSubtrees(ds, i, k - 1, x);
    }
  }

  /** The preorder walk from `i` visits exactly the subtree of `i`. */
  lemma {:induction false} PreorderMembers(ds: seq<Directory>, i: nat, x: nat)
    requires WellFormed(ds) && i < |ds| && x < |ds|
    ensures x in Preorder(ds, i) <==> IsDescendant(ds, x, i)
    decreases |ds| - i
  {
    var cs := Children(ds, i);
    InSubtrees(ds, i, |cs|, x);
    if x in Preorder(ds, i) && x != i {
      var j :| 0 <= j < |cs| && x in Preorder(ds, cs[j]);
      PreorderMembers(ds, cs[j], x);
      assert IsDescendant(ds, cs[j], i);
      DescendantTrans(ds, x, cs[j], i);
    }
    if IsDescendant(ds, x, i) && x != i {
      ChildOnPath(ds, x, i);
      var j :| 0 <= j < |cs| && IsDescendant(ds, x, cs[j]);
      PreorderMembers(ds, cs[j], x);
    }
  }

  lemma DistinctConcat(a: seq<nat>, b: seq<nat>)
    requires Distinct(a) && Distinct(b)
    requires forall x :: x in a ==> x !in b
    ensures Distinct(a + b)
  {
    forall p, q | 0 <= p < q < |a + b| ensures (a + b)[p] != (a + b)[q] {
      if q < |a| {
      } else if p >= |a| {
        assert (a + b)[p] == b[p - |a|] && (a + b)[q] == b[q - |a|];
      } else {
        assert (a + b)[p] == a[p] && a[p] in a;
        assert (a + b)[q] == b[q - |a|] && b[q - |a|] in b;
      }
    }
  }

  /** The preorder walk visits no directory twice. */
  lemma {:induction false} PreorderDistinct(ds: seq<Directory>, i: nat)
    requires WellFormed(ds) && i < |ds|
    ensures Distinct(Preorder(ds, i))
    decreases |ds| - i, 1
  {
    SubtreesDistinct(ds, i, |Children(ds, i)|);
    DistinctConcat([i], Subtrees(ds, i, |Children(ds, i)|));
  }

  lemma {:induction false} SubtreesDistinct(ds: seq<Directory>, i: nat, k: nat)
    requires WellFormed(ds) && i < |ds| && k <= |Children(ds, i)|
    ensures Distinct(Subtrees(ds, i, k))
    decreases |ds| - i, 0, k
  {
    if k > 0 {
      var cs := Children(ds, i);
      var last := cs[k - 1];
      SubtreesDistinct(ds, i, k - 1);
      PreorderDistinct(ds, last);
      forall x | x in Subtrees(ds, i, k - 1) ensures x !in Preorder(ds, last) {
        InSubtrees(ds, i, k - 1, x);
        var j :| 0 <= j < k - 1 && x in Preorder(ds, cs[j]);
        PreorderMembers(ds, cs[j], x);
        PreorderMembers(ds, last, x);
        SiblingsDisjoint(ds, x, cs[j], last);
      }
      DistinctConcat(Subtrees(ds, i, k - 1), Preorder(ds, last));
    }
  }

  /** The directories a walk visits. */
  ghost function Visited(s: seq<nat>): set<nat> {
    set x | x in s
  }

  lemma {:induction false} DistinctCardinality(s: seq<nat>)
    requires Distinct(s)
    ensures |Visited(s)| == |s|
  {
    if s != [] {
      DistinctCardinality(s[1..]);
      assert s[0] !in Visited(s[1..]);
      assert Visited(s) == Visited(s[1..]) + {s[0]};
    } else {
      assert Visited(s) == {};
    }
  }

  /** The arena indices below `n`. */
  ghost function Indices(n: nat): (r: set<nat>)
    ensures forall x: int :: x in r <==> 0 <= x < n
    ensures |r| == n
  {
    if n == 0 then {} else Indices(n - 1) + {n - 1}
  }

  /** `storeSizeAndSubdirsSizes(i)` adds one size per directory of the subtree
      of `i`, in preorder, starting with the size of `i` itself. */
  lemma CollectedSizes(ds: seq<Directory>, i: nat)
    requires WellFormed(ds) && i < |ds|
    ensures var walk := Preorder(ds, i);
      var sizes := SizesOf(ds, walk);
      Distinct(walk) && Visited(walk) == Subtree(ds, i) &&
      |sizes| == |Subtree(ds, i)| && sizes[0] == Size(ds, i)
  {
    var walk := Preorder(ds, i);
    PreorderDistinct(ds, i);
    DistinctCardinality(walk);
    forall x: nat ensures x in walk <==> x in Subtree(ds, i) {
      if x < |ds| {
        PreorderMembers(ds, i, x);
      }
    }
    assert Visited(walk) == Subtree(ds, i);
  }

  /** From the root the walk visits every directory of the arena once. */
  lemma RootWalk(ds: seq<Directory>)
    requires WellFormed(ds)
    ensures |Preorder(ds, 0)| == |ds|
    ensures forall x: nat :: x < |ds| ==> x in Preorder(ds, 0)
  {
    CollectedSizes(ds, 0);
    forall x: nat | x < |ds| ensures x in Subtree(ds, 0) && x in Preorder(ds, 0) {
      RootReachesAll(ds, x);
      PreorderMembers(ds, 0, x);
    }
    assert Subtree(ds, 0) == Indices(|ds|);
  }

  // ---------------------------------------------------------------------
  // Sizes

  lemma {:induction false} FilesTotalConcat(ds: seq<Directory>, a: seq<nat>, b: seq<nat>)
    requires forall k :: 0 <= k < |a| ==> a[k] < |ds|
    requires forall k :: 0 <= k < |b| ==> b[k] < |ds|
    ensures FilesTotal(ds, a + b) == FilesTotal(ds, a) + FilesTotal(ds, b)
    decreases |a|
  {
    if a != [] {
      assert (a + b)[0] == a[0] && (a + b)[1..] == a[1..] + b;
      FilesTotalConcat(ds, a[1..], b);
      assert FilesTotal(ds, a + b) == FilesSize(ds[a[0]].files) + FilesTotal(ds, a[1..] + b);
    } else {
      assert a + b == b;
    }
  }

  /** The size of a directory is the total of the files anywhere in its subtree. */
  lemma {:induction false} SizeIsFilesOfSubtree(ds: seq<Directory>, i: nat)
    requires WellFormed(ds) && i < |ds|
    ensures Size(ds, i) == FilesTotal(ds, Preorder(ds, i))
    decreases |ds| - i, 1
  {
    var sub := Subtrees(ds, i, |Children(ds, i)|);
    DirsSizeIsFilesOfSubtrees(ds, i, |Children(ds, i)|);
    assert ([i] + sub)[1..] == sub;
  }

  lemma {:induction false} DirsSizeIsFilesOfSubtrees(ds: seq<Directory>, i: nat, k: nat)
    requires WellFormed(ds) && i < |ds| && k <= |Children(ds, i)|
    ensures DirsSize(ds, i, k) == FilesTotal(ds, Subtrees(ds, i, k))
    decreases |ds| - i, 0, k
  {
    if k > 0 {
      var c := Children(ds, i)[k - 1];
      DirsSizeIsFilesOfSubtrees(ds, i, k - 1);
      SizeIsFilesOfSubtree(ds, c);
      FilesTotalConcat(ds, Subtrees(ds, i, k - 1), Preorder(ds, c));
    }
  }

  lemma {:induction false} ChildWithinDirsSize(ds: seq<Directory>, i: nat, k: nat, m: nat)
    requires WellFormed(ds) && i < |ds| && k < m <= |Children(ds, i)|
    ensures Size(ds, Children(ds, i)[k]) <= DirsSize(ds, i, m)
    decreases m
  {
    if m - 1 != k {
      ChildWithinDirsSize(ds, i, k, m - 1);
    }
  }

  /** A directory is at least as large as any directory below it. */
  lemma {:induction false} SizeAtLeastDescendant(ds: seq<Directory>, x: nat, a: nat)
    requires WellFormed(ds) && x < |ds| && a < |ds|
    requires IsDescendant(ds, x, a)
    ensures Size(ds, x) <= Size(ds, a)
    decreases x
  {
    if x != a {
      var p := ParentOf(ds, x);
      var cs := Children(ds, p);
      var k :| 0 <= k < |cs| && cs[k] == x;
      ChildWithinDirsSize(ds, p, k, |cs|);
      SizeAtLeastDescendant(ds, p, a);
    }
  }

  /** Replaying `size + " " + name` adds one file to the cursor; every directory
      on the path from the cursor up to the root grows by `size`, every other
      directory keeps its size. */
  lemma ReplayFile(t: Tree, size: nat, name: string)
    requires ValidTree(t)
    ensures Apply(t, P.FileItem(size, name)).Some?
    ensures var u := Apply(t, P.FileItem(size, name)).value;
      var d := t.dirs[t.cursor];
      u == Tree(t.dirs[t.cursor := d.(files := d.files + [File(t.cursor, size, name)])], t.cursor)
    ensures var u := Apply(t, P.FileItem(size, name)).value;
      forall j :: 0 <= j < |t.dirs| ==>
        Size(u.dirs, j) == Size(t.dirs, j) + (if IsDescendant(t.dirs, t.cursor, j) then size else 0)
  {
    var ds := t.dirs;
    var es := Apply(t, P.FileItem(size, name)).value.dirs;
    var f := File(t.cursor, size, name);
    forall j | 0 <= j < |ds|
      ensures Size(es, j) == Size(ds, j) + (if IsDescendant(ds, t.cursor, j) then size else 0)
    {
      var walk := Preorder(ds, j);
      SizeIsFilesOfSubtree(ds, j);
      SizeIsFilesOfSubtree(es, j);
      PreorderFrame(ds, es, j);
      PreorderDistinct(ds, j);
      FilesTotalAddFile(ds, es, walk, t.cursor, f);
      PreorderMembers(ds, j, t.cursor);
    }
  }

  lemma {:induction false} PreorderFrame(ds: seq<Directory>, es: seq<Directory>, i: nat)
    requires WellFormed(ds) && WellFormed(es) && |ds| == |es| && i < |ds|
    requires forall j :: 0 <= j < |ds| ==> ds[j].directories == es[j].directories
    ensures Preorder(ds, i) == Preorder(es, i)
    decreases |ds| - i, 1
  {
    SubtreesFrame(ds, es, i, |Children(ds, i)|);
  }

  lemma {:induction false} SubtreesFrame(ds: seq<Directory>, es: seq<Directory>, i: nat, k: nat)
    requires WellFormed(ds) && WellFormed(es) && |ds| == |es| && i < |ds|
    requires forall j :: 0 <= j < |ds| ==> ds[j].directories == es[j].directories
    requires k <= |Children(ds, i)|
    ensures k <= |Children(es, i)| && Subtrees(ds, i, k) == Subtrees(es, i, k)
    decreases |ds| - i, 0, k
  {
    assert Children(ds, i) == Children(es, i);
    if k > 0 {
      SubtreesFrame(ds, es, i, k - 1);
      PreorderFrame(ds, es, Children(ds, i)[k - 1]);
    }
  }

  lemma {:induction false} FilesTotalAddFile(ds: seq<Directory>, es: seq<Directory>, xs: seq<nat>, cur: nat, f: File)
    requires cur < |ds| && es == ds[cur := ds[cur].(files := ds[cur].files + [f])]
    requires Distinct(xs) && forall k :: 0 <= k < |xs| ==> xs[k] < |ds|
    ensures FilesTotal(es, xs) == FilesTotal(ds, xs) + (if cur in xs then f.size else 0)
    decreases |xs|
  {
    if xs != [] {
      assert Distinct(xs[1..]);
      FilesTotalAddFile(ds, es, xs[1..], cur, f);
      var fs := ds[cur].files;
      assert (fs + [f])[..|fs|] == fs;
      assert xs[0] == cur ==> cur !in xs[1..];
    }
  }

  /** Replaying `dir name` appends one new empty directory below the cursor,
      without a check for a sibling of the same name; the tree stays a tree
      and no existing directory changes size. */
  lemma ReplayDirectory(t: Tree, name: string)
    requires ValidTree(t)
    ensures Apply(t, P.DirectoryItem(name)).Some?
    ensures var u := Apply(t, P.DirectoryItem(name)).value;
      var d := t.dirs[t.cursor];
      u == Tree(t.dirs[t.cursor := d.(directories := d.directories + [|t.dirs|])]
                + [Directory(Some(t.cursor), name, [], [])], t.cursor)
    ensures var u := Apply(t, P.DirectoryItem(name)).value;
      ValidTree(u) && Size(u.dirs, |t.dirs|) == 0 &&
      forall j :: 0 <= j < |t.dirs| ==> Size(u.dirs, j) == Size(t.dirs, j)
  {
    forall j | 0 <= j < |t.dirs| ensures Size(AddDirectory(t, name).dirs, j) == Size(t.dirs, j) {
      SizeAfterAddDirectory(t, name, j);
    }
  }

  lemma {:induction false} SizeAfterAddDirectory(t: Tree, name: string, j: nat)
    requires ValidTree(t) && j < |t.dirs|
    ensures Size(AddDirectory(t, name).dirs, j) == Size(t.dirs, j)
    decreases |t.dirs| - j, 1
  {
    var ds, es := t.dirs, AddDirectory(t, name).dirs;
    var cs := Children(ds, j);
    DirsSizeAfterAddDirectory(t, name, j, |cs|);
    if j == t.cursor {
      var n := |ds|;
      assert Children(es, j) == cs + [n];
      assert Children(es, n) == [] && es[n].files == [];
      assert Size(es, n) == 0;
      assert DirsSize(es, j, |cs| + 1) == DirsSize(es, j, |cs|) + Size(es, n);
    } else {
      assert Children(es, j) == cs;
    }
  }

  lemma {:induction false} DirsSizeAfterAddDirectory(t: Tree, name: string, j: nat, k: nat)
    requires ValidTree(t) && j < |t.dirs| && k <= |Children(t.dirs, j)|
    ensures k <= |Children(AddDirectory(t, name).dirs, j)|
    ensures DirsSize(AddDirectory(t, name).dirs, j, k) == DirsSize(t.dirs, j, k)
    decreases |t.dirs| - j, 0, k
  {
    var ds, es := t.dirs, AddDirectory(t, name).dirs;
    assert Children(ds, j) <= Children(es, j);
    if k > 0 {
      DirsSizeAfterAddDirectory(t, name, j, k - 1);
      SizeAfterAddDirectory(t, name, Children(ds, j)[k - 1]);
    }
  }

  /** The replay only ever appends to the tree. */
  lemma {:induction false} ReplayAppendOnly(t: Tree, lines: seq<P.Line>)
    requires ValidTree(t)
    ensures ReplayAll(t, lines).Some? ==> Extends(t.dirs, ReplayAll(t, lines).value.dirs)
    decreases |lines|
  {
    if lines != [] && Apply(t, lines[0]).Some? {
      var u := Apply(t, lines[0]).value;
      ReplayAppendOnly(u, lines[1..]);
      if ReplayAll(u, lines[1..]).Some? {
        var w := ReplayAll(u, lines[1..]).value;
        forall i | 0 <= i < |t.dirs|
          ensures t.dirs[i].directories <= w.dirs[i].directories && t.dirs[i].files <= w.dirs[i].files
        {
          assert t.dirs[i].directories <= u.dirs[i].directories;
          assert t.dirs[i].files <= u.dirs[i].files;
        }
      }
    }
  }

  // ---------------------------------------------------------------------
  // The query

  /** The answer exists, because the root itself qualifies; it is the size of
      some directory, at least the threshold, at most the root's size, and no
      larger than any other qualifying directory. */
  lemma QueryAnswer(ds: seq<Directory>)
    requires WellFormed(ds)
    ensures SmallestDeletable(ds).Some?
    ensures var v := SmallestDeletable(ds).value;
      Threshold(ds) <= v <= Size(ds, 0) &&
      (exists x :: 0 <= x < |ds| && v == Size(ds, x)) &&
      forall x :: 0 <= x < |ds| && Size(ds, x) >= Threshold(ds) ==> v <= Size(ds, x)
  {
    var walk := Preorder(ds, 0);
    var sizes := SizesOf(ds, walk);
    assert sizes[0] == Size(ds, 0) >= Threshold(ds);
    var v := SmallestDeletable(ds).value;
    QueryIsSomeSize(ds, walk, sizes, v);
    QueryMinimal(ds, walk, sizes, v);
  }

  lemma QueryMinimal(ds: seq<Directory>, walk: seq<nat>, sizes: seq<int>, v: int)
    requires WellFormed(ds) && walk == Preorder(ds, 0) && sizes == SizesOf(ds, walk)
    requires SmallestDeletable(ds) == Some(v)
    ensures forall x :: 0 <= x < |ds| && Size(ds, x) >= Threshold(ds) ==> v <= Size(ds, x)
  {
    RootWalk(ds);
    forall x | 0 <= x < |ds| && Size(ds, x) >= Threshold(ds) ensures v <= Size(ds, x) {
      QueryBelowVisited(ds, walk, sizes, v, x);
    }
  }

  lemma QueryIsSomeSize(ds: seq<Directory>, walk: seq<nat>, sizes: seq<int>, v: int)
    requires WellFormed(ds) && walk == Preorder(ds, 0) && sizes == SizesOf(ds, walk)
    requires SmallestDeletable(ds) == Some(v)
    ensures exists x :: 0 <= x < |ds| && v == Size(ds, x)
  {
    var k :| 0 <= k < |sizes| && sizes[k] == v;
    assert v == Size(ds, walk[k]);
  }

  lemma QueryBelowVisited(ds: seq<Directory>, walk: seq<nat>, sizes: seq<int>, v: int, x: nat)
    requires WellFormed(ds) && walk == Preorder(ds, 0) && sizes == SizesOf(ds, walk)
    requires SmallestDeletable(ds) == Some(v)
    requires x in walk && Size(ds, x) >= Threshold(ds)
    ensures v <= Size(ds, x)
  {
    var m :| 0 <= m < |walk| && walk[m] == x;
    assert sizes[m] == Size(ds, x);
  }

  /** A short session: `dir a` and a 100-byte file under the root, `cd a`, a
      200-byte file there, `cd ..`. The cursor is back on the root, `a`
      weighs 200 and the root 300. */
  lemma NavigationExample()
    ensures var r := ReplayAll(Initial(), [P.Cd(P.Root), P.Ls, P.DirectoryItem("a"), P.FileItem(100, "f.txt"),
                                           P.Cd(P.Directory("a")), P.Ls, P.FileItem(200, "g.txt"), P.Cd(P.Up)]);
      r.Some? && r.value.cursor == 0 && |r.value.dirs| == 2 &&
      Size(r.value.dirs, 0) == 300 && Size(r.value.dirs, 1) == 200 &&
      SmallestDeletable(r.value.dirs) == Some(200)
  {
    var lines := [P.Cd(P.Root), P.Ls, P.DirectoryItem("a"), P.FileItem(100, "f.txt"),
                  P.Cd(P.Directory("a")), P.Ls, P.FileItem(200, "g.txt"), P.Cd(P.Up)];
    var t0 := Initial();
    var t2 := Tree([Directory(None, "/", [1], []), Directory(Some(0), "a", [], [])], 0);
    var t3 := Tree([Directory(None, "/", [1], [File(0, 100, "f.txt")]), Directory(Some(0), "a", [], [])], 0);
    var t4 := Tree(t3.dirs, 1);
    var t6 := Tree([Directory(None, "/", [1], [File(0, 100, "f.txt")]), Directory(Some(0), "a", [], [File(1, 200, "g.txt")])], 1);
    var t7 := Tree(t6.dirs, 0);
    assert Apply(t0, lines[0]) == Some(t0);
    assert Apply(t0, lines[1]) == Some(t0);
    ReplayDirectory(t0, "a");
    assert t0.dirs[0].directories + [|t0.dirs|] == [1];
    assert t0.dirs[0 := t0.dirs[0].(directories := [1])] == [Directory(None, "/", [1], [])];
    assert [Directory(None, "/", [1], [])] + [Directory(Some(0), "a", [], [])] == t2.dirs;
    assert Apply(t0, lines[2]).value.dirs == t2.dirs;
    assert Apply(t0, lines[2]) == Some(t2);
    ReplayFile(t2, 100, "f.txt");
    assert t2.dirs[0].files + [File(0, 100, "f.txt")] == [File(0, 100, "f.txt")];
    assert t2.dirs[0 := t2.dirs[0].(files := [File(0, 100, "f.txt")])] == t3.dirs;
    assert Apply(t2, lines[3]) == Some(t3);
    assert Apply(t3, lines[4]) == Some(t4);
    assert Apply(t4, lines[5]) == Some(t4);
    ReplayFile(t4, 200, "g.txt");
    assert t4.dirs[1 := t4.dirs[1].(files := [File(1, 200, "g.txt")])] == t6.dirs;
    assert Apply(t4, lines[6]) == Some(t6);
    assert Apply(t6, lines[7]) == Some(t7);
    assert ReplayAll(t7, lines[8..]) == Some(t7);
    assert ReplayAll(t6, lines[7..]) == Some(t7);
    assert ReplayAll(t4, lines[6..]) == Some(t7);
    assert ReplayAll(t4, lines[5..]) == Some(t7);
    assert ReplayAll(t3, lines[4..]) == Some(t7);
    assert ReplayAll(t2, lines[3..]) == Some(t7);
    assert ReplayAll(t0, lines[2..]) == Some(t7);
    assert ReplayAll(t0, lines[1..]) == Some(t7);
    assert ReplayAll(t0, lines) == Some(t7);
    var ds := t7.dirs;
    NavigationWalk(ds);
    NavigationQuery(ds);
  }

  /** The query on the hierarchy of `NavigationExample`: the threshold is far
      below zero, so the smallest size, 200, is the answer. */
  lemma NavigationQuery(ds: seq<Directory>)
    requires ds == [Directory(None, "/", [1], [File(0, 100, "f.txt")]),
                    Directory(Some(0), "a", [], [File(1, 200, "g.txt")])]
    ensures WellFormed(ds) && SmallestDeletable(ds) == Some(200)
  {
    NavigationWalk(ds);
    assert SizesOf(ds, [0, 1]) == [300, 200];
    var threshold := Threshold(ds);
    assert threshold < 0;
    assert [300, 200][1..] == [200] && [200][1..] == [];
    assert MinAtLeast([200], threshold) == Some(200);
    assert MinAtLeast([300, 200], threshold) == Some(200);
  }

  lemma NavigationWalk(ds: seq<Directory>)
    requires ds == [Directory(None, "/", [1], [File(0, 100, "f.txt")]),
                    Directory(Some(0), "a", [], [File(1, 200, "g.txt")])]
    ensures WellFormed(ds) && Size(ds, 0) == 300 && Size(ds, 1) == 200
    ensures Preorder(ds, 0) == [0, 1]
  {
    NavigationShape(ds);
    assert Size(ds, 1) == 200 by {
      assert FilesSize(ds[1].files) == 200;
    }
    assert DirsSize(ds, 0, 1) == 200;
    assert Size(ds, 0) == 300 by {
      assert FilesSize(ds[0].files) == 100;
    }
    assert Preorder(ds, 1) == [1];
    assert Subtrees(ds, 0, 1) == [1];
  }

  lemma NavigationShape(ds: seq<Directory>)
    requires ds == [Directory(None, "/", [1], [File(0, 100, "f.txt")]),
                    Directory(Some(0), "a", [], [File(1, 200, "g.txt")])]
    ensures WellFormed(ds) && Children(ds, 0) == [1] && Children(ds, 1) == []
  {
    assert DirOk(ds, 0) && DirOk(ds, 1);
  }

  /** The same session as transcript text, through the whole program: every
      line parses, and the answer is 200. */
  lemma SessionSolve()
    ensures Solve(["$ cd /", "$ ls", "dir a", "100 f.txt", "$ cd a", "$ ls", "200 g.txt", "$ cd .."]) == Ok(200)
  {
    var input := ["$ cd /", "$ ls", "dir a", "100 f.txt", "$ cd a", "$ ls", "200 g.txt", "$ cd .."];
    var lines := [P.Cd(P.Root), P.Ls, P.DirectoryItem("a"), P.FileItem(100, "f.txt"),
                  P.Cd(P.Directory("a")), P.Ls, P.FileItem(200, "g.txt"), P.Cd(P.Up)];
    SessionParses(input, lines);
    NavigationExample();
  }

  lemma SessionParses(input: seq<string>, lines: seq<P.Line>)
    requires input == ["$ cd /", "$ ls", "dir a", "100 f.txt", "$ cd a", "$ ls", "200 g.txt", "$ cd .."]
    requires lines == [P.Cd(P.Root), P.Ls, P.DirectoryItem("a"), P.FileItem(100, "f.txt"),
                       P.Cd(P.Directory("a")), P.Ls, P.FileItem(200, "g.txt"), P.Cd(P.Up)]
    ensures ParseAll(input) == Ok(lines)
  {
    SessionCommands();
    SessionItems();
    ParseFour(input[4..], lines[4..]);
    ParseFour(input[..4], lines[..4]);
    ParseAllConcat(input[..4], lines[..4], input[4..], lines[4..]);
    assert input[..4] + input[4..] == input && lines[..4] + lines[4..] == lines;
  }

  /** Four lines that each parse, parsed together. */
  lemma ParseFour(input: seq<string>, lines: seq<P.Line>)
    requires |input| == 4 && |lines| == 4
    requires P.Parse(input[0]) == Ok(lines[0]) && P.Parse(input[1]) == Ok(lines[1])
    requires P.Parse(input[2]) == Ok(lines[2]) && P.Parse(input[3]) == Ok(lines[3])
    ensures ParseAll(input) == Ok(lines)
  {
    ParseAllOf(input, lines);
  }

  /** A transcript whose every line parses to the matching entry of `lines`
      parses to `lines`. */
  lemma ParseAllOf(input: seq<string>, lines: seq<P.Line>)
    requires |input| == |lines|
    requires forall k :: 0 <= k < |input| ==> P.Parse(input[k]) == Ok(lines[k])
    ensures ParseAll(input) == Ok(lines)
  {
    var parsed := ParseAll(input);
    assert forall k :: 0 <= k < |lines| ==> parsed.value[k] == lines[k];
    assert parsed.value == lines;
  }

  /** Parsing two transcripts one after the other. */
  lemma ParseAllConcat(a: seq<string>, la: seq<P.Line>, b: seq<string>, lb: seq<P.Line>)
    requires ParseAll(a) == Ok(la) && ParseAll(b) == Ok(lb)
    ensures ParseAll(a + b) == Ok(la + lb)
  {
    ParseAllOf(a + b, la + lb);
  }

  lemma SessionCommands()
    ensures P.Parse("$ cd /") == Ok(P.Cd(P.Root)) && P.Parse("$ ls") == Ok(P.Ls)
    ensures P.Parse("$ cd a") == Ok(P.Cd(P.Directory("a"))) && P.Parse("$ cd ..") == Ok(P.Cd(P.Up))
  {
    P.CommandExamples();
    P.CdLine("$ cd a");
    assert "$ cd a"[5..] == "a";
  }

  lemma SessionItems()
    ensures P.Parse("dir a") == Ok(P.DirectoryItem("a"))
    ensures P.Parse("100 f.txt") == Ok(P.FileItem(100, "f.txt"))
    ensures P.Parse("200 g.txt") == Ok(P.FileItem(200, "g.txt"))
  {
    P.DirLine("dir a");
    assert "dir a"[4..] == "a";
    SmallFile();
    LargeFile();
  }

  lemma SmallFile()
    ensures P.Parse("100 f.txt") == Ok(P.FileItem(100, "f.txt"))
  {
    assert "100 f.txt" == "100" + " " + "f.txt";
    assert "100"[..2] == "10" && "10"[..1] == "1" && "1"[..0] == "";
    assert P.DecimalValue("10") == 10;
    assert P.DecimalValue("100") == 100;
    P.FileLine("100", "f.txt");
  }

  lemma LargeFile()
    ensures P.Parse("200 g.txt") == Ok(P.FileItem(200, "g.txt"))
  {
    assert "200 g.txt" == "200" + " " + "g.txt";
    assert "200"[..2] == "20" && "20"[..1] == "2" && "2"[..0] == "";
    assert P.DecimalValue("20") == 20;
    assert P.DecimalValue("200") == 200;
    P.FileLine("200", "g.txt");
  }
}
