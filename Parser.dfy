/** Classification of one line of the shell transcript (Parser.kt).
    The four regular expressions of the source are written out as explicit
    string predicates: a prefix test, an all-ASCII-digits test and a split
    after the leading run of digits. */
module Parser {
  import opened Wrappers

  /** Largest value of a 32-bit `Int`; `toInt()` throws above it. */
  const MaxInt: nat := 0x7FFF_FFFF

  /** Argument of a `cd` command. */
  datatype Path = Root | Up | Directory(name: string)

  /** A parsed transcript line: a command, or an item printed by `ls`. */
  datatype Line =
    | Cd(path: Path)
    | Ls
    | FileItem(size: nat, name: string)
    | DirectoryItem(name: string)

  predicate IsDigit(c: char) { '0' <= c <= '9' }

  predicate AllDigits(s: string) { forall i :: 0 <= i < |s| ==> IsDigit(s[i]) }

  /** The characters that `.` in a JVM regular expression does not match. */
  predicate IsLineTerminator(c: char) {
    c == '\n' || c == '\r' || c == '\U{85}' || c == '\U{2028}' || c == '\U{2029}'
  }

  /** `s` is matched by `.*` */
  predicate NoTerminators(s: string) { forall i :: 0 <= i < |s| ==> !IsLineTerminator(s[i]) }

  predicate StartsWith(s: string, prefix: string) { |prefix| <= |s| && s[..|prefix|] == prefix }

  function DigitValue(c: char): nat
    requires IsDigit(c)
  {
    c as int - '0' as int
  }

  function DigitChar(d: nat): (c: char)
    requires d < 10
    ensures IsDigit(c) && DigitValue(c) == d
  {
    ('0' as int + d) as char
  }

  /** The number a run of decimal digits denotes (leading zeros allowed). */
  function DecimalValue(s: string): nat
    requires AllDigits(s)
  {
    if s == [] then 0 else DecimalValue(s[..|s| - 1]) * 10 + DigitValue(s[|s| - 1])
  }

  /** Decimal rendering of a size, as string interpolation prints an `Int`. */
  function NatToString(n: nat): (r: string)
    ensures r != [] && AllDigits(r) && DecimalValue(r) == n
  {
    if n < 10 then [DigitChar(n)]
    else
      var r := NatToString(n / 10) + [DigitChar(n % 10)];
      assert r[..|r| - 1] == NatToString(n / 10);
      r
  }

  /** `toInt()` and decimal rendering are inverse on digit strings without a
      leading zero: the value of such a string renders back to the string. */
  lemma {:induction false} CanonicalDigits(s: string)
    requires s != [] && AllDigits(s) && (s[0] != '0' || |s| == 1)
    ensures NatToString(DecimalValue(s)) == s
    decreases |s|
  {
    var last := s[|s| - 1];
    var d := DigitValue(last);
    assert DigitChar(d) == last;
    if |s| > 1 {
      var front := s[..|s| - 1];
      assert front[0] == s[0];
      CanonicalDigits(front);
      var v := DecimalValue(front);
      assert v != 0 by {
        assert NatToString(v) == front;
      }
      assert DecimalValue(s) == v * 10 + d;
      assert (v * 10 + d) / 10 == v && (v * 10 + d) % 10 == d;
      assert s == front + [last];
    }
  }

  /** Length of the longest run of digits at the start of `s`. */
  function LeadingDigits(s: string): (n: nat)
    ensures n <= |s| && AllDigits(s[..n]) && (n < |s| ==> !IsDigit(s[n]))
  {
    if s == [] || !IsDigit(s[0]) then 0
    else
      var n := 1 + LeadingDigits(s[1..]);
      assert forall i :: 1 <= i < n ==> s[..n][i] == s[1..][..n - 1][i - 1];
      n
  }

  /** The guard `\d+ .*` of the source, decided on the leading run of digits;
      it holds exactly when the regular expression matches. */
  predicate MatchesFileShape(line: string)
    ensures MatchesFileShape(line) <==> FileShapeRegex(line)
  {
    var d := LeadingDigits(line);
    1 <= d < |line| && line[d] == ' ' && NoTerminators(line[d + 1..])
  }

  /** The guard `\d+ .*` read as a regular expression: some non-empty run of
      digits, a space, then anything on the same line. */
  ghost predicate FileShapeRegex(line: string) {
    exists d :: 1 <= d < |line| && AllDigits(line[..d]) && line[d] == ' ' && NoTerminators(line[d + 1..])
  }

  /** The `cd` argument the token names: the one whose rendering is the token. */
  function PathOf(token: string): (p: Path)
    ensures Render(Cd(p)) == "$ cd " + token
    ensures WellFormed(Cd(p)) <==> NoTerminators(token)
  {
    if token == "/" then Root else if token == ".." then Up else Directory(token)
  }

  /** `\$ cd (.*)`: fails only when the argument runs past the end of the line;
      otherwise the command whose rendering is the line. */
  function ParseCd(line: string): (r: Result<Line>)
    ensures r.Ok? <==> StartsWith(line, "$ cd ") && NoTerminators(line[5..])
    ensures r.Ok? ==> r.value.Cd? && WellFormed(r.value) && Render(r.value) == line
  {
    if StartsWith(line, "$ cd ") && NoTerminators(line[5..]) then Ok(Cd(PathOf(line[5..])))
    else Failure
  }

  /** `dir (.+)`: the directory item whose rendering is the line, or a failure
      when the name is empty or runs past the end of the line. */
  function ParseDirectory(line: string): (r: Result<Line>)
    ensures r.Ok? <==> StartsWith(line, "dir ") && |line| > 4 && NoTerminators(line[4..])
    ensures r.Ok? ==> r.value.DirectoryItem? && WellFormed(r.value) && Render(r.value) == line
  {
    if StartsWith(line, "dir ") && |line| > 4 && NoTerminators(line[4..]) then Ok(DirectoryItem(line[4..]))
    else Failure
  }

  /** `(\d+) (.+)` followed by `toInt()`, which throws when the size does not
      fit an `Int`. A line it accepts passes the guard `\d+ .*` and spells the
      file it yields. */
  function ParseFile(line: string): (r: Result<Line>)
    ensures r.Ok? ==> MatchesFileShape(line)
    ensures r.Ok? ==> r.value.FileItem? && WellFormed(r.value) && Spells(line, r.value)
  {
    var d := LeadingDigits(line);
    if 1 <= d && d + 1 < |line| && line[d] == ' ' && NoTerminators(line[d + 1..]) then
      var size := DecimalValue(line[..d]);
      if size <= MaxInt then Ok(FileItem(size, line[d + 1..])) else Failure
    else Failure
  }

  /** The guards are tried in the order ls, cd, dir, file; the first that
      matches decides the outcome. */
  function Parse(line: string): (r: Result<Line>)
    ensures r.Ok? ==> WellFormed(r.value)
  {
    if line == "$ ls" then Ok(Ls)
    else if StartsWith(line, "$ cd") then ParseCd(line)
    else if StartsWith(line, "dir") then ParseDirectory(line)
    else if MatchesFileShape(line) then ParseFile(line)
    else Failure
  }

  /** A line value some text parses to: names fit on one line, directory and
      file names are non-empty, a `cd` name is not one of the special tokens,
      and a size fits an `Int`. */
  predicate WellFormed(l: Line) {
    match l
    case Cd(Directory(n)) => n != "/" && n != ".." && NoTerminators(n)
    case Cd(_) => true
    case Ls => true
    case FileItem(s, n) => s <= MaxInt && n != [] && NoTerminators(n)
    case DirectoryItem(n) => n != [] && NoTerminators(n)
  }

  /** The transcript text of a line, as the shell prints it. */
  function Render(l: Line): string {
    match l
    case Ls => "$ ls"
    case Cd(Root) => "$ cd /"
    case Cd(Up) => "$ cd .."
    case Cd(Directory(n)) => "$ cd " + n
    case DirectoryItem(n) => "dir " + n
    case FileItem(s, n) => NatToString(s) + " " + n
  }

  /** `line` spells `l`: exactly its rendering, except that the size of a file
      may be written with leading zeros. */
  ghost predicate Spells(line: string, l: Line) {
    match l
    case FileItem(s, n) =>
      exists digits: string :: digits != [] && AllDigits(digits) && DecimalValue(digits) == s && line == digits + " " + n
    case _ => line == Render(l)
  }

  lemma {:induction false} LeadingDigitsOfConcat(digits: string, rest: string)
    requires AllDigits(digits)
    requires rest != [] && !IsDigit(rest[0])
    ensures LeadingDigits(digits + rest) == |digits|
    decreases |digits|
  {
    if digits != [] {
      assert (digits + rest)[1..] == digits[1..] + rest;
      LeadingDigitsOfConcat(digits[1..], rest);
    }
  }

  /** A line `digits + " " + rest` with a non-empty `rest` is a file whose size
      is the value of the digits, split at the first space, so `rest` may hold
      spaces; a size too large for an `Int` fails. */
  lemma FileLine(digits: string, rest: string)
    requires digits != [] && AllDigits(digits)
    requires rest != [] && NoTerminators(rest)
    ensures Parse(digits + " " + rest) ==
      if DecimalValue(digits) <= MaxInt then Ok(FileItem(DecimalValue(digits), rest)) else Failure
  {
    var line := digits + (" " + rest);
    assert line == digits + " " + rest;
    DigitLineIsNoCommand(line);
    LeadingDigitsOfConcat(digits, " " + rest);
    assert line[..|digits|] == digits;
    assert line[|digits| + 1..] == rest;
    assert MatchesFileShape(line);
  }

  lemma DigitLineIsNoCommand(line: string)
    requires line != [] && IsDigit(line[0])
    ensures line != "$ ls" && !StartsWith(line, "$ cd") && !StartsWith(line, "dir")
  {
    assert line[..1] != "$" && line[..1] != "d";
  }

  /** A file line with an empty name passes the guard `\d+ .*` but fails in
      `parseFile`. */
  lemma FileLineWithoutName(digits: string)
    requires digits != [] && AllDigits(digits)
    ensures MatchesFileShape(digits + " ") && Parse(digits + " ") == Failure
  {
    var line := digits + " ";
    DigitLineIsNoCommand(line);
    LeadingDigitsOfConcat(digits, " ");
  }

  /** `"$ cd " + t` goes to the root, up, or into the directory named `t`
      (even an empty one); `"$ cd"` not followed by a space fails. */
  lemma CdLine(line: string)
    requires StartsWith(line, "$ cd")
    ensures |line| == 4 || line[4] != ' ' ==> Parse(line) == Failure
    ensures |line| > 4 && line[4] == ' ' && NoTerminators(line[5..]) ==>
      Parse(line) == Ok(Cd(if line[5..] == "/" then Root else if line[5..] == ".." then Up else Directory(line[5..])))
  {
    assert line != "$ ls" by { assert line[2] != "$ ls"[2]; }
    if |line| > 4 && line[4] == ' ' {
      assert line[..5] == "$ cd ";
    }
  }

  /** A line starting with `dir` is a directory item or fails; it never falls
      through to the file rule. */
  lemma DirLine(line: string)
    requires StartsWith(line, "dir")
    ensures Parse(line) == if |line| > 4 && line[3] == ' ' && NoTerminators(line[4..]) then Ok(DirectoryItem(line[4..])) else Failure
  {
    assert line != "$ ls" && !StartsWith(line, "$ cd") by { assert line[0] == 'd'; }
    if |line| > 4 && line[3] == ' ' {
      assert line[..4] == "dir ";
    }
  }

  /** Only the exact text `$ ls` is `Ls`. */
  lemma LsLine(line: string)
    ensures Parse(line) == Ok(Ls) <==> line == "$ ls"
  {
    if Parse(line) == Ok(Ls) && line != "$ ls" {
      if StartsWith(line, "$ cd") {
        CdLine(line);
      } else if StartsWith(line, "dir") {
        DirLine(line);
      }
    }
  }

  /** Rendering a well-formed line and parsing the text gives the line back. */
  lemma {:induction false} ParseRender(l: Line)
    requires WellFormed(l)
    ensures Parse(Render(l)) == Ok(l)
  {
    match l
    case Ls =>
    case Cd(p) =>
      var line := Render(l);
      assert line[..4] == "$ cd";
      CdLine(line);
      match p {
        case Root => assert line[5..] == "/";
        case Up => assert line[5..] == "..";
        case Directory(n) => assert line[5..] == n;
      }
    case DirectoryItem(n) =>
      var line := Render(l);
      assert line[..3] == "dir";
      DirLine(line);
      assert line[4..] == n;
    case FileItem(s, n) =>
      FileLine(NatToString(s), n);
  }

  /** What a line parses to, stated without the guards: `line` parses to `l`
      exactly when `l` is well formed and `line` spells it. */
  lemma ParseExactly(line: string, l: Line)
    ensures Parse(line) == Ok(l) <==> WellFormed(l) && Spells(line, l)
  {
    if Parse(line) == Ok(l) {
      if line == "$ ls" {
      } else if StartsWith(line, "$ cd") {
        CdLine(line);
        assert line == "$ cd " + line[5..];
      } else if StartsWith(line, "dir") {
        DirLine(line);
        assert line == "dir " + line[4..];
      } else {
        var d := LeadingDigits(line);
        assert line == line[..d] + " " + line[d + 1..];
      }
    }
    if WellFormed(l) && Spells(line, l) {
      match l
      case FileItem(s, n) =>
        var digits: string :| digits != [] && AllDigits(digits) && DecimalValue(digits) == s && line == digits + " " + n;
        FileLine(digits, n);
      case _ =>
        ParseRender(l);
    }
  }

  /** The four command shapes of a transcript. */
  lemma CommandExamples()
    ensures Parse("$ ls") == Ok(Ls)
    ensures Parse("$ cd /") == Ok(Cd(Root))
    ensures Parse("$ cd ..") == Ok(Cd(Up))
    ensures Parse("$ cd foo") == Ok(Cd(Directory("foo")))
  {
    CdLine("$ cd /");
    CdLine("$ cd ..");
    CdLine("$ cd foo");
  }

  /** A directory listing line and a file listing line. */
  lemma ItemExamples()
    ensures Parse("dir bar") == Ok(DirectoryItem("bar"))
    ensures Parse("123 baz.txt") == Ok(FileItem(123, "baz.txt"))
  {
    DirLine("dir bar");
    assert "123 baz.txt" == "123" + " " + "baz.txt";
    assert "123"[..2] == "12" && "12"[..1] == "1" && "1"[..0] == "";
    assert DecimalValue("12") == 12;
    assert DecimalValue("123") == 123;
    FileLine("123", "baz.txt");
  }

  /** Near misses of each rule fail instead of falling through. */
  lemma RejectedExamples()
    ensures Parse("$ ls ") == Failure && Parse("$ lsx") == Failure
    ensures Parse("$ cd") == Failure && Parse("$ cdx") == Failure
    ensures Parse("dir") == Failure && Parse("dirx") == Failure && Parse("dir ") == Failure
    ensures Parse("123 ") == Failure && Parse("???") == Failure
  {
    CdLine("$ cd");
    CdLine("$ cdx");
    DirLine("dir");
    DirLine("dirx");
    DirLine("dir ");
    assert "123 " == "123" + " ";
    FileLineWithoutName("123");
  }
}
