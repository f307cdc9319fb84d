/** The imperative part of Main.kt: the replay loop that moves `currentDir`
    and appends to the directory lists in place, the recursive walk that
    appends every directory's size to a list, and `main`'s pipeline from the
    transcript lines to the answer. */
module Replay {
  import opened Wrappers
  import P = Parser
  import opened FileTree
  import opened TreeLemmas

  /** The mutable hierarchy, owned by one run: the arena of directories
      (slot 0 is `rootDir`) and the cursor `currentDir`. */
  class Builder {
    var dirs: seq<Directory>
    var cursor: nat

    ghost predicate Valid()
      reads this
    {
      ValidTree(Tree(dirs, cursor))
    }

    function Model(): Tree
      reads this
    {
      Tree(dirs, cursor)
    }

    /** A hierarchy holding only the root, with the cursor on it. */
    constructor ()
      ensures Valid() && Model() == Initial()
    {
      dirs := [RootDir];
      cursor := 0;
    }

    /** One iteration of the replay loop. `false` when a `cd` cannot be
        resolved (where the source throws); the state is then unchanged. */
    method Step(line: P.Line) returns (ok: bool)
      requires Valid()
      modifies this
      ensures ok == Apply(old(Model()), line).Some?
      ensures ok ==> Valid() && Model() == Apply(old(Model()), line).value
      ensures !ok ==> Model() == old(Model())
    {
      match line {
        case Cd(path) =>
          var target := ChangeDir(dirs, cursor, path);
          if target.None? {
            return false;
          }
          cursor := target.value;
        case Ls =>
        case FileItem(size, name) =>
          var d := dirs[cursor];
          dirs := dirs[cursor := d.(files := d.files + [File(cursor, size, name)])];
        case DirectoryItem(name) =>
          var d := dirs[cursor];
          var child := |dirs|;
          dirs := dirs[cursor := d.(directories := d.directories + [child])]
                  + [Directory(Some(cursor), name, [], [])];
      }
      ok := true;
    }

    /** `terminalOutput.forEach { ... }`: replays the lines in order and stops
        at the first one that fails. */
    method Replay(lines: seq<P.Line>) returns (ok: bool)
      requires Valid()
      modifies this
      ensures ok == ReplayAll(old(Model()), lines).Some?
      ensures ok ==> Valid() && Model() == ReplayAll(old(Model()), lines).value
    {
      ghost var start := Model();
      var i := 0;
      while i < |lines|
        invariant 0 <= i <= |lines|
        invariant Valid()
        invariant ReplayAll(start, lines) == ReplayAll(Model(), lines[i..])
      {
        assert lines[i..][1..] == lines[i + 1..];
        var stepped := Step(lines[i]);
        if !stepped {
          return false;
        }
        i := i + 1;
      }
      return true;
    }

    /** `storeSizeAndSubdirsSizes`: appends the size of directory `i` and then,
        child by child, the sizes of the subtrees below it. */
    method StoreSizeAndSubdirsSizes(i: nat, sizes: seq<int>) returns (result: seq<int>)
      requires Valid() && i < |dirs|
      ensures result == sizes + SizesOf(dirs, Preorder(dirs, i))
      decreases |dirs| - i
    {
      result := sizes + [Size(dirs, i)];
      assert SizesOf(dirs, [i] + Subtrees(dirs, i, 0)) == [Size(dirs, i)];
      var children := Children(dirs, i);
      var k := 0;
      while k < |children|
        invariant 0 <= k <= |children|
        invariant result == sizes + SizesOf(dirs, [i] + Subtrees(dirs, i, k))
      {
        ghost var before := [i] + Subtrees(dirs, i, k);
        ghost var walk := Preorder(dirs, children[k]);
        result := StoreSizeAndSubdirsSizes(children[k], result);
        WalkStep(dirs, i, k, result, sizes);
        k := k + 1;
      }
    }
  }

  /** One child further in the walk of `storeSizeAndSubdirsSizes`. */
  lemma WalkStep(ds: seq<Directory>, i: nat, k: nat, result: seq<int>, sizes: seq<int>)
    requires WellFormed(ds) && i < |ds| && k < |Children(ds, i)|
    requires result == sizes + SizesOf(ds, [i] + Subtrees(ds, i, k)) + SizesOf(ds, Preorder(ds, Children(ds, i)[k]))
    ensures result == sizes + SizesOf(ds, [i] + Subtrees(ds, i, k + 1))
  {
    var before := [i] + Subtrees(ds, i, k);
    var walk := Preorder(ds, Children(ds, i)[k]);
    SubtreesStep(ds, i, k);
    AppendSizes(ds, sizes, before, walk);
  }

  lemma SubtreesStep(ds: seq<Directory>, i: nat, k: nat)
    requires WellFormed(ds) && i < |ds| && k < |Children(ds, i)|
    ensures [i] + Subtrees(ds, i, k + 1) == [i] + Subtrees(ds, i, k) + Preorder(ds, Children(ds, i)[k])
  {
    assert Subtrees(ds, i, k + 1) == Subtrees(ds, i, k) + Preorder(ds, Children(ds, i)[k]);
  }

  /** Appending the sizes of two walks one after the other appends the sizes
      of the joined walk. */
  lemma AppendSizes(ds: seq<Directory>, sizes: seq<int>, a: seq<nat>, b: seq<nat>)
    requires WellFormed(ds)
    requires forall k :: 0 <= k < |a| ==> a[k] < |ds|
    requires forall k :: 0 <= k < |b| ==> b[k] < |ds|
    ensures sizes + SizesOf(ds, a) + SizesOf(ds, b) == sizes + SizesOf(ds, a + b)
  {
    var joined := SizesOf(ds, a + b);
    assert joined == SizesOf(ds, a) + SizesOf(ds, b);
    Associative(sizes, SizesOf(ds, a), SizesOf(ds, b), joined);
  }

  /** Regrouping a concatenation; stated for sequences of sizes alone, so that
      the proof of `AppendSizes` does not reason about `SizesOf` here. */
  lemma Associative(s: seq<int>, a: seq<int>, b: seq<int>, c: seq<int>)
    requires c == a + b
    ensures s + a + b == s + c
  {
  }

  /** `main` after reading the file: parse every line, replay them from the
      root, collect all sizes and pick the least one at or above the
      threshold. Any failure (a bad line, an unresolvable `cd`, an empty
      candidate list) is `Failure`. */
  method Run(input: seq<string>) returns (answer: Result<int>)
    ensures answer == Solve(input)
  {
    var parsed := ParseAll(input);
    if parsed.Failure? {
      return Failure;
    }
    var builder := new Builder();
    var ok := builder.Replay(parsed.value);
    if !ok {
      return Failure;
    }
    ghost var tree := ReplayAll(Initial(), parsed.value).value;
    assert builder.dirs == tree.dirs;
    var minSizeToBeDeleted := Size(builder.dirs, 0) - MaxOccupiedSpace;
    var sizes := builder.StoreSizeAndSubdirsSizes(0, []);
    assert sizes == SizesOf(tree.dirs, Preorder(tree.dirs, 0));
    var smallest := MinAtLeast(sizes, minSizeToBeDeleted);
    assert smallest == SmallestDeletable(tree.dirs);
    match smallest
    case None => answer := Failure;
    case Some(v) => answer := Ok(v);
  }

  /** The program fails only on a transcript that does not parse or does not
      replay; otherwise it answers with the least directory size that frees
      enough space, and that answer is at most the root's size. */
  lemma SolveAnswer(input: seq<string>)
    ensures Solve(input).Ok? <==>
      ParseAll(input).Ok? && ReplayAll(Initial(), ParseAll(input).value).Some?
    ensures Solve(input).Ok? ==>
      var ds := ReplayAll(Initial(), ParseAll(input).value).value.dirs;
      var v := Solve(input).value;
      Threshold(ds) <= v <= Size(ds, 0) &&
      (exists x :: 0 <= x < |ds| && v == Size(ds, x)) &&
      forall x :: 0 <= x < |ds| && Size(ds, x) >= Threshold(ds) ==> v <= Size(ds, x)
  {
    if ParseAll(input).Ok? && ReplayAll(Initial(), ParseAll(input).value).Some? {
      QueryAnswer(ReplayAll(Initial(), ParseAll(input).value).value.dirs);
    }
  }
}
