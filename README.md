# Shell transcript to directory sizes (Advent of Code 2022, day 7)

The program reads a shell session transcript made of `$ cd <path>`, `$ ls` and the lines that `ls` prints (`dir <name>`, `<size> <name>`). It rebuilds the directory hierarchy the session walked through. Then it prints the size of the smallest directory whose deletion leaves at least 30 000 000 free on a 70 000 000 disk.

The model has four modules:

- `Wrappers` holds `Option` and `Result`.
- `Parser` covers `Parser.kt`.
  - The four regular expressions are written out as string predicates: a prefix test, an ASCII-digit test, a split after the leading run of digits, and a check that a matched group contains no JVM line terminator.
  - Every exception becomes `Failure`, including `toInt()` overflow above 2 147 483 647.
- `FileTree` covers the pure part of `Main.kt`.
  - The hierarchy is an arena: slot 0 is `rootDir`, and every other directory records its parent's slot.
  - A child's slot is always greater than its parent's, and each child list is strictly increasing. This is the tree invariant `WellFormed`, and it is also the termination measure of `Size` and of the preorder walk.
  - `Size`, `ChangeDir`, the replay step `Apply` and its fold `ReplayAll`, the walk order `Preorder` and the query `SmallestDeletable` are functions.
- `TreeLemmas` holds the properties of those functions:
  - `Size` is the sum of the files of the subtree, so it is at least the size of any descendant;
  - the walk visits every directory of the subtree exactly once;
  - replay steps append and change nothing else;
  - the answer exists and is the least qualifying size.
- `Replay` covers the imperative part of `Main.kt`.
  - The class `Builder` owns the arena (`dirs`) and the cursor (`currentDir`).
  - `Step` and `Replay` reassign the arena and the cursor. `StoreSizeAndSubdirsSizes` only reads them. Each method is proved equal to the functions above.
  - `StoreSizeAndSubdirsSizes` is the recursive walk that appends to an accumulator. `Run` is `main` from the transcript lines to the answer.

In these corner cases the model follows the code:

- Lines are split on `"\n"` only, so a line ending in `\r` keeps it. `.` in the regexes does not match `\r`, so such a line fails to parse; the model does the same, because its name checks reject every line terminator.
- A line that starts with `dir` but is not `dir <non-empty name>` (`dir`, `dir `, `dirx`) fails. It does not fall through to the file rule.
- `cd` with an empty argument (`"$ cd "`) parses to a move into a child named `""`.

## Model

| member | source | states |
|---|---|---|
| Parser.Parse | src/main/kotlin/Parser.kt:29-36 | Every successful parse yields a well-formed line: a non-empty name for `dir` and file items, and a `cd` name that is neither `/` nor `..` |
| Parser.LsLine | src/main/kotlin/Parser.kt:31 | A line parses to `Ls` if and only if it is exactly `$ ls` |
| Parser.CdLine | src/main/kotlin/Parser.kt:38-46 | A line starting with `$ cd` fails unless a space follows. Otherwise the rest is `Root` for `/`, `Up` for `..`, and a named child for anything else, the empty name included |
| Parser.DirLine | src/main/kotlin/Parser.kt:49-53 | A line starting with `dir` is a directory item exactly when it is `dir ` followed by a non-empty name; every other such line fails and never reaches the file rule |
| Parser.FileLine | src/main/kotlin/Parser.kt:55-60 | Digits, a space and a non-empty name parse to a file. Its size is the decimal value of the digits, and its name is everything after the first space, spaces included. The parse fails when the value exceeds the 32-bit maximum |
| Parser.FileLineWithoutName | src/main/kotlin/Parser.kt:55-58 | Digits followed by a space and nothing else pass the dispatch guard but fail in the file rule |
| Parser.DigitLineIsNoCommand | src/main/kotlin/Parser.kt:30-34 | A line starting with a digit matches none of the three earlier guards, so the file rule is the one that decides it |
| Parser.MatchesFileShape | src/main/kotlin/Parser.kt:34 | The dispatch guard for files, decided on the leading run of digits and the space after it, holds if and only if the line is some non-empty digit string, a space and any rest on one line, which is what `\d+ .*` matches |
| Parser.PathOf | src/main/kotlin/Parser.kt:41-45 | The path a `cd` token names is the one whose rendering is that token: `/` is the root, `..` is up, anything else is a child of that name |
| Parser.ParseCd | src/main/kotlin/Parser.kt:38-47 | `parseCd` fails exactly when the line is not `$ cd ` followed by an argument on one line. Otherwise it yields a well-formed `cd` whose rendering is the line |
| Parser.ParseDirectory | src/main/kotlin/Parser.kt:49-53 | `parseDirectory` fails exactly when the line is not `dir ` followed by a non-empty name on one line. Otherwise it yields the well-formed directory item whose rendering is the line |
| Parser.ParseFile | src/main/kotlin/Parser.kt:55-60 | Whatever `parseFile` accepts passes the `\d+ .*` guard and is a well-formed file item that the line spells, with a size that fits an `Int` |
| Parser.CanonicalDigits | src/main/kotlin/Parser.kt:57 | `DecimalValue`, the model of `toInt()`, is the inverse of decimal rendering: a digit string without a leading zero renders back from its value |
| Parser.LeadingDigits | src/main/kotlin/Parser.kt:56 | The split point is the longest all-digit prefix: everything before it is a digit, and the character at it is not |
| Parser.NatToString | src/main/kotlin/Parser.kt:57 | Decimal rendering is a non-empty digit string whose decimal value is the number, so `toInt()` reads it back |
| Parser.ParseRender | src/main/kotlin/Parser.kt:29-60 | Rendering a well-formed line as transcript text and parsing it gives the same line back |
| Parser.ParseExactly | src/main/kotlin/Parser.kt:29-60 | Parsing gives line `l` if and only if `l` is well formed and the text spells `l`, with any number of leading zeros in a file size |
| Parser.CommandExamples | src/main/kotlin/Parser.kt:31-46 | `$ ls`, `$ cd /`, `$ cd ..` and `$ cd foo` parse to `Ls`, `Cd(Root)`, `Cd(Up)` and `Cd(Directory("foo"))` |
| Parser.ItemExamples | src/main/kotlin/Parser.kt:49-60 | `dir bar` parses to a directory item and `123 baz.txt` to a file of size 123 |
| Parser.RejectedExamples | src/main/kotlin/Parser.kt:30-36 | `$ ls `, `$ lsx`, `$ cd`, `$ cdx`, `dir`, `dirx`, `dir `, `123 ` and `???` all fail |
| FileTree.Initial | src/main/kotlin/Main.kt:40 | A run starts from a valid hierarchy holding only the root, with the cursor on it |
| FileTree.ParentOf | src/main/kotlin/Main.kt:7-8 | Every directory other than the root has a parent in an earlier slot that lists it among its children |
| FileTree.Children | src/main/kotlin/Main.kt:10 | Every child of a directory records that directory as its parent, and the children are in creation order |
| FileTree.FirstNamed | src/main/kotlin/Main.kt:23 | The search finds the first child in list order with the name, and finds nothing exactly when no child has it |
| FileTree.ChangeDir | src/main/kotlin/Main.kt:19-24 | `Root` goes to the root from anywhere. `Up` goes to the parent, and fails exactly at the root. A name goes to the first child of the cursor with that name, and fails exactly when there is none |
| FileTree.Apply | src/main/kotlin/Main.kt:42-64 | A replay step keeps the hierarchy a tree. It fails only on an unresolvable `cd`. `ls` changes nothing, and `cd` changes only the cursor |
| FileTree.ReplayAll | src/main/kotlin/Main.kt:41-65 | Replaying a transcript from a valid hierarchy yields a valid hierarchy |
| FileTree.AddFile | src/main/kotlin/Main.kt:46-54 | Adding a file keeps the hierarchy a tree |
| FileTree.AddDirectory | src/main/kotlin/Main.kt:56-63 | Adding a directory keeps the hierarchy a tree |
| FileTree.Preorder | src/main/kotlin/Main.kt:92-95 | The walk from a directory starts with that directory and visits only directories of the arena |
| FileTree.SizesOf | src/main/kotlin/Main.kt:93 | The collected list has one entry per visited directory, and each entry is that directory's size |
| FileTree.MinAtLeast | src/main/kotlin/Main.kt:71 | The filtered minimum is absent exactly when every element is below the threshold. Otherwise it is an element, it is at least the threshold, and it is at most every element that reaches the threshold |
| FileTree.ParseAll | src/main/kotlin/Main.kt:38 | Parsing the transcript succeeds exactly when every line parses, and then it holds each line's parse in order |
| FileTree.FilesSize | src/main/kotlin/Main.kt:14 | The `files.sumOf` term is at least the size of each file in the list |
| TreeLemmas.SizeIsFilesOfSubtree | src/main/kotlin/Main.kt:14 | `FileTree.Size`, a directory's size, is the total size of the files in the directories of its subtree |
| TreeLemmas.SizeAtLeastDescendant | src/main/kotlin/Main.kt:14 | `FileTree.Size` of a directory is at least the size of each of its descendants |
| TreeLemmas.ChildWithinDirsSize | src/main/kotlin/Main.kt:14 | `FileTree.DirsSize`, the `directories.sumOf` term, is at least the size of each child it sums |
| TreeLemmas.RootReachesAll | src/main/kotlin/Main.kt:56-63 | Every directory of the arena lies below the root |
| TreeLemmas.SiblingsDisjoint | src/main/kotlin/Main.kt:56-63 | The subtrees of two distinct siblings share no directory |
| TreeLemmas.PreorderMembers | src/main/kotlin/Main.kt:92-95 | The walk from a directory visits exactly the directories of its subtree |
| TreeLemmas.PreorderDistinct | src/main/kotlin/Main.kt:92-95 | The walk visits no directory twice |
| TreeLemmas.CollectedSizes | src/main/kotlin/Main.kt:92-95 | The walk from a directory visits exactly its subtree, once each. The number of sizes collected is the number of directories in the subtree, and the first is the directory's own size |
| TreeLemmas.RootWalk | src/main/kotlin/Main.kt:69-70 | The walk from the root visits every directory, and the list of sizes has one entry per directory |
| TreeLemmas.ReplayFile | src/main/kotlin/Main.kt:46-54 | A file item appends exactly one file, with that size and name and the cursor as parent, to the cursor's files. Nothing else changes. Exactly the cursor and the directories above it grow by that size |
| TreeLemmas.ReplayDirectory | src/main/kotlin/Main.kt:56-63 | A directory item appends one new empty directory, whose parent is the cursor, to the cursor's children without looking for a duplicate name. The hierarchy stays a tree, the new directory weighs 0 and no existing size changes |
| TreeLemmas.SizeAfterAddDirectory | src/main/kotlin/Main.kt:56-63 | Adding an empty directory leaves every existing directory's size unchanged |
| TreeLemmas.ReplayAppendOnly | src/main/kotlin/Main.kt:40-65 | Replay only appends: each existing directory keeps its parent and name, and its child and file lists grow only at the end |
| FileTree.Threshold | src/main/kotlin/Main.kt:67 | `minSizeToBeDeleted` is at most the root's size. A deleted size frees enough space on the 70 000 000 disk for the 30 000 000 update exactly when it is at least the threshold |
| TreeLemmas.QueryAnswer | src/main/kotlin/Main.kt:67-71 | `FileTree.SmallestDeletable` is the query. On any hierarchy its answer exists. It lies between the threshold (root size minus 40 000 000) and the root's size, it is the size of some directory, and it is at most every directory size that reaches the threshold |
| TreeLemmas.SessionSolve | src/main/kotlin/Main.kt:35-73 | `FileTree.Solve` on the lines `$ cd /`, `$ ls`, `dir a`, `100 f.txt`, `$ cd a`, `$ ls`, `200 g.txt`, `$ cd ..` parses every line and answers 200 |
| TreeLemmas.NavigationExample | src/main/kotlin/Main.kt:40-71 | Replaying `cd /`, `ls`, `dir a`, `100 f.txt`, `cd a`, `ls`, `200 g.txt`, `cd ..` ends on the root. The root weighs 300 and `a` weighs 200, and the answer is 200 |
| Replay.Builder.constructor | src/main/kotlin/Main.kt:40 | A new builder holds only the root, with the cursor on it |
| Replay.Builder.Step | src/main/kotlin/Main.kt:42-64 | One in-place step succeeds exactly when the replay step does, and then leaves the builder in that step's result. On failure the state is unchanged |
| Replay.Builder.Replay | src/main/kotlin/Main.kt:41-65 | The in-place loop succeeds exactly when the replay of the whole transcript does, and then leaves the builder in its result |
| Replay.Builder.StoreSizeAndSubdirsSizes | src/main/kotlin/Main.kt:92-95 | The recursive walk appends to the accumulator exactly the sizes of the preorder walk from the directory, its own size first |
| Replay.Run | src/main/kotlin/Main.kt:35-73 | The imperative program computes exactly the answer of the functional pipeline: parse, replay, collect, filtered minimum |
| Replay.SolveAnswer | src/main/kotlin/Main.kt:35-73 | `FileTree.Solve`, the whole program, fails only when a line does not parse or a `cd` cannot be resolved. Otherwise its answer is at least the threshold and at most the root's size, it is some directory's size, and it is minimal among the qualifying sizes |

## Left out

- Reading `input.txt` with okio, dropping the final character and splitting on `"\n"` (Main.kt:36-38) are file I/O. The model takes the list of lines as input.
- Printing the answer (Main.kt:72) and the pretty-printer `Directory.print` (Main.kt:78-87) are console output only.
- FileTree.Size: does not model 32-bit wrap-around of `sumOf`, because sizes are unbounded naturals; a transcript whose total exceeds 2 147 483 647 wraps in the source.
- Exception types and messages, including the `toString` of the directory in the `Up` error, are not modelled. Every failure is the single `Failure` (or `None`) case.
- Data-class `equals`/`hashCode` play no part in the program's behaviour and are not modelled. The process-wide `rootDir` singleton becomes slot 0 of an arena owned by each builder.
- Names are sequences of Dafny characters, not UTF-16 code units. A surrogate pair is therefore not split into two `Char`s.
- Replay.Builder.StoreSizeAndSubdirsSizes: passes the accumulator as a value that the recursive calls return, not as a shared `MutableList`. The order and content of the appended sizes are the same.
- The worked example whose root weighs 48 381 165 and whose answer is 24 933 642 is not replayed. Building that tree by hand would be large, and `TreeLemmas.QueryAnswer` already proves the answer's properties for every hierarchy.
- The parse stage runs over every line before any replay, as `map` does, so a bad line anywhere fails the run even when an earlier `cd` would also fail. Both are the single `Failure`.
