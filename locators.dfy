/** Source files as the editor reads them, and the two ways a ctags locator
    names a line: a `/^…$/;"` search pattern or a bare line number. Both the
    tag cache (code_editor.py) and the function list (main_window.py) resolve
    locators with the scans defined here. */
module Locators {
  import opened PyString

  /** What opening a path for reading gives: its lines (without line
      terminators), or an error (a directory, no permission, a bad encoding). */
  datatype FileState = Readable(lines: seq<string>) | Unreadable

  /** `os.path.exists(p)` is `p in fs`. */
  type FileSystem = map<string, FileState>

  predicate CanRead(fs: FileSystem, path: string) {
    path in fs && fs[path].Readable?
  }

  /** A locator of the form `/^<pattern>$/;"`. */
  predicate IsPatternLocator(info: string) {
    StartsWith(info, "/^") && EndsWith(info, "$/;\"")
  }

  lemma PatternLocatorLength(info: string)
    requires IsPatternLocator(info)
    ensures |info| >= 6
  {
    assert info[|info| - 4..][0] == '$';
    assert info[..2][0] == '/' && info[..2][1] == '^';
  }

  /** An all-digit locator is never a pattern locator. */
  lemma DigitsAreNoPattern(info: string)
    requires IsDigits(info)
    ensures !IsPatternLocator(info)
  {
    assert info[0] != '/';
    assert |info| < 2 || info[..2][0] == info[0];
  }

  /** `line_info[2:-4].strip()`: the pattern inside the wrapper. */
  function PatternOf(info: string): (r: string)
    requires IsPatternLocator(info)
    ensures |r| <= |info| - 6
  {
    PatternLocatorLength(info);
    Strip(info[2..|info| - 4])
  }

  /** `pattern in line.strip()`. */
  predicate LineHas(line: string, pattern: string) {
    Contains(Strip(line), pattern)
  }

  /** Which lines' stripped text contains `pattern`. */
  function Hits(lines: seq<string>, pattern: string): (r: seq<bool>)
    ensures |r| == |lines|
    ensures forall j :: 0 <= j < |lines| ==> r[j] == LineHas(lines[j], pattern)
  {
    seq(|lines|, j requires 0 <= j < |lines| => LineHas(lines[j], pattern))
  }

  /** The first 1-based position at or after `i + 1` that is a hit. */
  function FirstHit(hits: seq<bool>, i: nat): (r: Option<nat>)
    decreases |hits| - i
    ensures r.Some? ==> i < r.value <= |hits| && hits[r.value - 1]
    ensures r.Some? ==> forall j :: i <= j < r.value - 1 ==> !hits[j]
    ensures r.None? ==> forall j :: i <= j < |hits| ==> !hits[j]
  {
    if i >= |hits| then None
    else if hits[i] then Some(i + 1)
    else FirstHit(hits, i + 1)
  }

  /** The first 1-based line whose stripped text contains `pattern`. */
  function FirstLineContaining(lines: seq<string>, pattern: string): (r: Option<nat>)
    ensures r.Some? ==> 0 < r.value <= |lines| && LineHas(lines[r.value - 1], pattern)
    ensures r.Some? ==> forall j :: 0 <= j < r.value - 1 ==> !LineHas(lines[j], pattern)
    ensures r.None? ==> forall j :: 0 <= j < |lines| ==> !LineHas(lines[j], pattern)
  {
    FirstHit(Hits(lines, pattern), 0)
  }

  /** `symbol` occurs nowhere in `line`. */
  ghost predicate NoMatch(line: string, symbol: string) {
    forall k: nat :: !IsMatchAt(line, symbol, k)
  }

  /** `symbol` occurs at offset `i` of `line` and at no earlier offset. */
  predicate IsFirstMatch(line: string, symbol: string, i: nat) {
    IsMatchAt(line, symbol, i) && forall k: nat :: k < i ==> !IsMatchAt(line, symbol, k)
  }

  /** `source_line.find(symbol)` on line `n` (1-based) when the file has that
      line, and 0 (the column's initial value) when it does not. */
  function ColumnOnLine(lines: seq<string>, n: int, symbol: string): (r: int)
    ensures 1 <= n <= |lines| ==> r == Find(lines[n - 1], symbol, 0)
    ensures r >= -1
    ensures 1 <= n <= |lines| ==> (r == -1 <==> !Contains(lines[n - 1], symbol))
    ensures 1 <= n <= |lines| ==> (r == -1 <==> NoMatch(lines[n - 1], symbol))
    ensures 1 <= n <= |lines| && r >= 0 ==> IsFirstMatch(lines[n - 1], symbol, r)
    ensures !(1 <= n <= |lines|) ==> r == 0
  {
    if 1 <= n <= |lines| then
      FindIsFirst(lines[n - 1], symbol, 0);
      Find(lines[n - 1], symbol, 0)
    else 0
  }

  /** The tag cache's column clamp: a failed `find` (-1) becomes 0. */
  function Clamp(column: int): (r: int)
    requires column >= -1
    ensures r >= 0
    ensures column >= 0 ==> r == column
    ensures column == -1 ==> r == 0
  {
    if column == -1 then 0 else column
  }

  /** The `for i, source_line in enumerate(f, 1)` loop that stops at the first
      line whose stripped text contains `pattern`; `column` is
      `source_line.find(symbol)` on that line. */
  method ScanForPattern(lines: seq<string>, pattern: string, symbol: string)
    returns (lineNumber: Option<nat>, column: int)
    ensures lineNumber == FirstLineContaining(lines, pattern)
    ensures lineNumber.Some? ==> column == Find(lines[lineNumber.value - 1], symbol, 0)
    ensures lineNumber.None? ==> column == 0
  {
    lineNumber, column := None, 0;
    var i := 0;
    while i < |lines|
      invariant 0 <= i <= |lines|
      invariant FirstLineContaining(lines, pattern) == FirstHit(Hits(lines, pattern), i)
    {
      if LineHas(lines[i], pattern) {
        lineNumber := Some(i + 1);
        column := Find(lines[i], symbol, 0);
        return;
      }
      i := i + 1;
    }
  }

  /** The `for i, source_line in enumerate(f, 1)` loop that stops at line `n`
      and takes `source_line.find(symbol)` there. */
  method ScanForLine(lines: seq<string>, n: int, symbol: string) returns (column: int)
    ensures column == ColumnOnLine(lines, n, symbol)
  {
    column := 0;
    var i := 0;
    while i < |lines|
      invariant 0 <= i <= |lines|
      invariant column == 0
      invariant n < 1 || i < n
    {
      if i + 1 == n {
        column := Find(lines[i], symbol, 0);
        return;
      }
      i := i + 1;
    }
  }
}
