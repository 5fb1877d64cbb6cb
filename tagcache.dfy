/** The symbol cache that go-to-definition consults (code_editor.py,
    `update_tags_cache`): ctags records are read from tag files in order and
    each one is reconciled against the source file it names, giving
    `symbol -> (file, line, column)`. This module states the rebuild as
    functions; the class that performs it with loops is in module CodeEditor. */
module TagCache {
  import opened PyString
  import opened Locators

  /** A resolved definition: the file as the tag record names it, the line
      (1-based when it comes from the source file) and a 0-based column. */
  datatype Location = Location(file: string, line: int, column: int)

  type Cache = map<string, Location>

  /** What one line of a tag file does to the cache. `Abort` is an exception
      (a source file that cannot be opened, a `line:` value `int()` rejects),
      which ends the whole update. */
  datatype Step = Skip | Insert(symbol: string, loc: Location) | Abort

  /** `line.strip().split("\t")`. */
  function Fields(line: string): seq<string> {
    Split(Strip(line), '\t')
  }

  /** The tag kind: the fourth field, `'unknown'` when there is none. */
  function Kind(parts: seq<string>): string {
    if |parts| > 3 then parts[3] else "unknown"
  }

  /** The index of the first field at or after `i` that starts with `line:`,
      or `|parts|`. */
  function LineFieldIndex(parts: seq<string>, i: nat): (k: nat)
    requires i <= |parts|
    decreases |parts| - i
    ensures i <= k <= |parts|
    ensures k < |parts| ==> StartsWith(parts[k], "line:")
    ensures forall j :: i <= j < k ==> !StartsWith(parts[j], "line:")
  {
    if i == |parts| || StartsWith(parts[i], "line:") then i else LineFieldIndex(parts, i + 1)
  }

  lemma LineFieldHasTwoPieces(field: string)
    requires StartsWith(field, "line:")
    ensures |Split(field, ':')| >= 2
  {
    assert field[..5] == "line:";
    assert IndexOf(field, ':', 0) == 4 by {
      assert forall j :: 0 <= j < 4 ==> field[j] == field[..5][j];
      assert field[4] == ':';
    }
  }

  /** `field.split(":")[1]` of the first field that starts with `line:`, if any. */
  function LineFieldText(parts: seq<string>): Option<string> {
    var k := LineFieldIndex(parts, 0);
    if k == |parts| then None
    else
      LineFieldHasTwoPieces(parts[k]);
      Some(Split(parts[k], ':')[1])
  }

  /** Resolve by search pattern: the first line whose stripped text contains
      the pattern, the column of `symbol` on it (0 when absent). `fallback` is
      the outcome when no line matches. */
  function ByPattern(fs: FileSystem, symbol: string, path: string, info: string, fallback: Step): Step
    requires IsPatternLocator(info)
  {
    if !CanRead(fs, path) then Abort
    else
      var lines := fs[path].lines;
      match FirstLineContaining(lines, PatternOf(info))
      case Some(n) => Insert(symbol, Location(path, n, Clamp(Find(lines[n - 1], symbol, 0))))
      case None => fallback
  }

  /** Resolve at a given line: the column of `symbol` on line `n`, 0 when the
      symbol is absent or the file has no line `n`. */
  function AtLine(fs: FileSystem, symbol: string, path: string, n: int): Step {
    if !CanRead(fs, path) then Abort
    else Insert(symbol, Location(path, n, Clamp(ColumnOnLine(fs[path].lines, n, symbol))))
  }

  /** One tag-file line, reconciled as `update_tags_cache` does it. */
  function Reconcile(fs: FileSystem, line: string): Step {
    if StartsWith(line, "!") || |Fields(line)| < 3 then Skip
    else if Kind(Fields(line)) == "d" then MacroRecord(fs, Fields(line))
    else PlainRecord(fs, Fields(line))
  }

  /** A macro record: its `line:` field wins over the locator. */
  function MacroRecord(fs: FileSystem, parts: seq<string>): Step
    requires |parts| >= 3
  {
    var symbol, path, info := parts[0], parts[1], parts[2];
    match LineFieldText(parts)
    case Some(text) =>
      (match ParseInt(text)
       case None => Abort
       case Some(n) =>
         if n != 0 then AtLine(fs, symbol, path, n)
         // `line:0` leaves line_number at 0, which is not None
         else if IsPatternLocator(info) then ByPattern(fs, symbol, path, info, Insert(symbol, Location(path, 0, 0)))
         else Insert(symbol, Location(path, 0, 0)))
    case None =>
      if IsPatternLocator(info) then ByPattern(fs, symbol, path, info, Skip) else Skip
  }

  /** Any other record: resolved by pattern or by line number. */
  function PlainRecord(fs: FileSystem, parts: seq<string>): Step
    requires |parts| >= 3
  {
    var symbol, path, info := parts[0], parts[1], parts[2];
    if IsPatternLocator(info) then ByPattern(fs, symbol, path, info, Skip)
    else if IsDigits(info) then AtLine(fs, symbol, path, DecimalValue(info))
    else Skip
  }

  /** The cache after a run of tag-file lines, and whether an exception ended it. */
  datatype Fold = Fold(cache: Cache, aborted: bool)

  /** The cache after one step that did not raise. */
  function Apply(step: Step, cache: Cache): Cache {
    if step.Insert? then cache[step.symbol := step.loc] else cache
  }

  function ProcessLines(fs: FileSystem, lines: seq<string>, cache: Cache): Fold {
    if lines == [] then Fold(cache, false)
    else
      var step := Reconcile(fs, lines[0]);
      if step.Abort? then Fold(cache, true)
      else ProcessLines(fs, lines[1..], Apply(step, cache))
  }

  /** The tag files in order: a missing one is skipped, one that cannot be
      opened or whose records raise ends the update with what is there. */
  function ProcessFiles(fs: FileSystem, files: seq<string>, cache: Cache): Cache {
    if files == [] then cache
    else if files[0] !in fs then ProcessFiles(fs, files[1..], cache)
    else
      match fs[files[0]]
      case Unreadable => cache
      case Readable(lines) =>
        var r := ProcessLines(fs, lines, cache);
        if r.aborted then r.cache else ProcessFiles(fs, files[1..], r.cache)
  }

  /** `update_tags_cache(files)`: the cache is cleared first, then filled. */
  function Rebuild(fs: FileSystem, files: seq<string>): Cache {
    ProcessFiles(fs, files, map[])
  }

  // ---------------------------------------------------------------------
  // Single records

  /** Header lines and lines with fewer than three fields add nothing. */
  lemma HeaderAndShortLinesSkipped(fs: FileSystem, line: string)
    requires StartsWith(line, "!") || |Fields(line)| < 3
    ensures Reconcile(fs, line) == Skip
  {
  }

  /** A non-macro record with a `/^P$/;"` locator: an entry exactly when some
      line of the source contains `P` after stripping; it is the first such
      line, and the column is the first offset of the symbol in that raw line,
      or 0 if the symbol does not occur there. */
  lemma PatternLocator(fs: FileSystem, line: string)
    requires !StartsWith(line, "!") && |Fields(line)| >= 3
    requires Kind(Fields(line)) != "d" && IsPatternLocator(Fields(line)[2])
    requires CanRead(fs, Fields(line)[1])
    ensures var parts := Fields(line);
            var lines := fs[parts[1]].lines;
            var p := PatternOf(parts[2]);
            && (Reconcile(fs, line).Insert? <==> exists j :: 0 <= j < |lines| && LineHas(lines[j], p))
            && (Reconcile(fs, line).Skip? <==> !Reconcile(fs, line).Insert?)
            && (Reconcile(fs, line).Insert? ==>
                  var loc := Reconcile(fs, line).loc;
                  && Reconcile(fs, line).symbol == parts[0]
                  && loc.file == parts[1]
                  && 1 <= loc.line <= |lines|
                  && LineHas(lines[loc.line - 1], p)
                  && (forall j :: 0 <= j < loc.line - 1 ==> !LineHas(lines[j], p))
                  && ColumnOfSymbol(lines[loc.line - 1], parts[0], loc.column))
  {
    var parts := Fields(line);
    var lines := fs[parts[1]].lines;
    var p := PatternOf(parts[2]);
    var first := FirstLineContaining(lines, p);
    if first.Some? {
      ColumnIsFirstOffset(lines[first.value - 1], parts[0]);
    }
  }

  /** `column` is the first offset of `symbol` in `line`, or 0 when it does
      not occur. */
  ghost predicate ColumnOfSymbol(line: string, symbol: string, column: int) {
    && column >= 0
    && ((exists i: nat :: IsMatchAt(line, symbol, i)) ==>
          IsMatchAt(line, symbol, column) && forall i: nat :: i < column ==> !IsMatchAt(line, symbol, i))
    && ((forall i: nat :: !IsMatchAt(line, symbol, i)) ==> column == 0)
  }

  lemma ColumnIsFirstOffset(line: string, symbol: string)
    ensures ColumnOfSymbol(line, symbol, Clamp(Find(line, symbol, 0)))
  {
    FindIsFirst(line, symbol, 0);
  }

  /** A non-macro record with an all-digit locator always gives an entry at
      that line; the column is the symbol's offset on that line, 0 when the
      symbol is absent or the line is past the end of the file. */
  lemma NumericLocator(fs: FileSystem, line: string)
    requires !StartsWith(line, "!") && |Fields(line)| >= 3
    requires Kind(Fields(line)) != "d" && IsDigits(Fields(line)[2])
    requires CanRead(fs, Fields(line)[1])
    ensures var parts := Fields(line);
            var lines := fs[parts[1]].lines;
            var n := DecimalValue(parts[2]);
            && Reconcile(fs, line).Insert?
            && Reconcile(fs, line).symbol == parts[0]
            && Reconcile(fs, line).loc.file == parts[1]
            && Reconcile(fs, line).loc.line == n
            && (1 <= n <= |lines| ==> ColumnOfSymbol(lines[n - 1], parts[0], Reconcile(fs, line).loc.column))
            && (!(1 <= n <= |lines|) ==> Reconcile(fs, line).loc.column == 0)
  {
    var parts := Fields(line);
    var lines := fs[parts[1]].lines;
    var n := DecimalValue(parts[2]);
    DigitsAreNoPattern(parts[2]);
    if 1 <= n <= |lines| {
      ColumnIsFirstOffset(lines[n - 1], parts[0]);
    }
  }

  /** A macro (`d`) record with a non-zero `line:N` field resolves to line N,
      whatever its locator says. */
  lemma MacroLineField(fs: FileSystem, line: string, n: int)
    requires !StartsWith(line, "!") && |Fields(line)| >= 3 && Kind(Fields(line)) == "d"
    requires LineFieldText(Fields(line)).Some? && ParseInt(LineFieldText(Fields(line)).value) == Some(n)
    requires n != 0 && CanRead(fs, Fields(line)[1])
    ensures Reconcile(fs, line).Insert?
    ensures Reconcile(fs, line).loc.line == n && Reconcile(fs, line).loc.file == Fields(line)[1]
    ensures Reconcile(fs, line).symbol == Fields(line)[0]
    ensures var lines := fs[Fields(line)[1]].lines;
            && (1 <= n <= |lines| ==> ColumnOfSymbol(lines[n - 1], Fields(line)[0], Reconcile(fs, line).loc.column))
            && (!(1 <= n <= |lines|) ==> Reconcile(fs, line).loc.column == 0)
  {
    var lines := fs[Fields(line)[1]].lines;
    if 1 <= n <= |lines| {
      ColumnIsFirstOffset(lines[n - 1], Fields(line)[0]);
    }
  }

  /** A macro record without a `line:` field is only resolved by pattern: with
      an all-digit locator it gives no entry. */
  lemma MacroWithoutLineFieldIgnoresNumber(fs: FileSystem, line: string)
    requires !StartsWith(line, "!") && |Fields(line)| >= 3 && Kind(Fields(line)) == "d"
    requires LineFieldText(Fields(line)).None? && IsDigits(Fields(line)[2])
    ensures Reconcile(fs, line) == Skip
  {
    DigitsAreNoPattern(Fields(line)[2]);
  }

  /** A macro record with `line:0` whose pattern finds nothing (or that has no
      pattern) still gives an entry, at line 0 and column 0. */
  lemma MacroLineZero(fs: FileSystem, line: string)
    requires !StartsWith(line, "!") && |Fields(line)| >= 3 && Kind(Fields(line)) == "d"
    requires LineFieldText(Fields(line)).Some? && ParseInt(LineFieldText(Fields(line)).value) == Some(0)
    requires CanRead(fs, Fields(line)[1])
    requires IsPatternLocator(Fields(line)[2]) ==>
               FirstLineContaining(fs[Fields(line)[1]].lines, PatternOf(Fields(line)[2])).None?
    ensures Reconcile(fs, line) == Insert(Fields(line)[0], Location(Fields(line)[1], 0, 0))
  {
  }

  /** A `line:` value that `int()` rejects raises. */
  lemma BadLineFieldAborts(fs: FileSystem, line: string)
    requires !StartsWith(line, "!") && |Fields(line)| >= 3 && Kind(Fields(line)) == "d"
    requires LineFieldText(Fields(line)).Some? && ParseInt(LineFieldText(Fields(line)).value).None?
    ensures Reconcile(fs, line) == Abort
  {
  }

  /** A record whose source file has to be read but cannot be raises. */
  lemma UnreadableSourceAborts(fs: FileSystem, line: string)
    requires !StartsWith(line, "!") && |Fields(line)| >= 3 && Kind(Fields(line)) != "d"
    requires IsPatternLocator(Fields(line)[2]) || IsDigits(Fields(line)[2])
    requires !CanRead(fs, Fields(line)[1])
    ensures Reconcile(fs, line) == Abort
  {
  }

  // ---------------------------------------------------------------------
  // Runs of lines and lists of files

  /** A line that adds nothing does not stop later lines either: removing it
      changes nothing. */
  lemma {:induction false} SkippedLineIsTransparent(fs: FileSystem, lines: seq<string>, k: nat, cache: Cache)
    requires k < |lines| && Reconcile(fs, lines[k]) == Skip
    ensures ProcessLines(fs, lines, cache) == ProcessLines(fs, lines[..k] + lines[k + 1..], cache)
  {
    if k == 0 {
      assert lines[..0] + lines[1..] == lines[1..];
    } else {
      var rest := lines[1..];
      assert rest[..k - 1] + rest[k..] == (lines[..k] + lines[k + 1..])[1..];
      assert (lines[..k] + lines[k + 1..])[0] == lines[0];
      var step := Reconcile(fs, lines[0]);
      if !step.Abort? {
        SkippedLineIsTransparent(fs, rest, k - 1, Apply(step, cache));
      }
    }
  }

  /** The location of the last record for `symbol` among `lines`, if any. */
  function LastInsert(fs: FileSystem, lines: seq<string>, symbol: string): Option<Location> {
    if lines == [] then None
    else
      var step := Reconcile(fs, lines[|lines| - 1]);
      if step.Insert? && step.symbol == symbol then Some(step.loc)
      else LastInsert(fs, lines[..|lines| - 1], symbol)
  }

  /** `out` maps `symbol` to `last` when there is one, and otherwise agrees
      with `cache` on it. */
  ghost predicate Resolved(out: Cache, cache: Cache, last: Option<Location>, symbol: string) {
    match last
    case Some(loc) => symbol in out && out[symbol] == loc
    case None => (symbol in out <==> symbol in cache) && (symbol in cache ==> out[symbol] == cache[symbol])
  }

  /** Without an exception, each symbol ends up at the location of its LAST
      record in the run; symbols without a record keep their old entry. */
  lemma {:induction false} LastRecordWins(fs: FileSystem, lines: seq<string>, cache: Cache, symbol: string)
    requires !ProcessLines(fs, lines, cache).aborted
    decreases |lines|
    ensures Resolved(ProcessLines(fs, lines, cache).cache, cache, LastInsert(fs, lines, symbol), symbol)
  {
    if lines != [] {
      var init := lines[..|lines| - 1];
      var last := lines[|lines| - 1];
      assert lines == init + [last];
      ProcessLinesAppend(fs, init, last, cache);
      var mid := ProcessLines(fs, init, cache);
      assert !mid.aborted;
      LastRecordWins(fs, init, cache, symbol);
      ProcessOne(fs, last, mid.cache);
    }
  }

  lemma ProcessOne(fs: FileSystem, line: string, cache: Cache)
    ensures ProcessLines(fs, [line], cache) ==
              if Reconcile(fs, line).Abort? then Fold(cache, true) else Fold(Apply(Reconcile(fs, line), cache), false)
  {
    assert [line][1..] == [];
  }

  /** Processing a run and then one more line is processing the longer run. */
  lemma {:induction false} ProcessLinesAppend(fs: FileSystem, init: seq<string>, last: string, cache: Cache)
    decreases |init|
    ensures var mid := ProcessLines(fs, init, cache);
            ProcessLines(fs, init + [last], cache) ==
              if mid.aborted then mid else ProcessLines(fs, [last], mid.cache)
  {
    if init != [] {
      assert (init + [last])[1..] == init[1..] + [last];
      var step := Reconcile(fs, init[0]);
      if !step.Abort? {
        ProcessLinesAppend(fs, init[1..], last, Apply(step, cache));
      }
    }
  }

  /** An exception keeps what was inserted before it and ignores the rest of
      the run. */
  lemma {:induction false} AbortKeepsPrefix(fs: FileSystem, lines: seq<string>, k: nat, cache: Cache)
    requires k < |lines| && Reconcile(fs, lines[k]) == Abort
    requires !ProcessLines(fs, lines[..k], cache).aborted
    ensures ProcessLines(fs, lines, cache) == Fold(ProcessLines(fs, lines[..k], cache).cache, true)
  {
    if k > 0 {
      assert lines[1..][..k - 1] == lines[..k][1..];
      var step := Reconcile(fs, lines[0]);
      if !step.Abort? {
        AbortKeepsPrefix(fs, lines[1..], k - 1, Apply(step, cache));
      }
    }
  }

  /** An exception in one tag file means no later tag file is read. */
  lemma AbortSkipsLaterFiles(fs: FileSystem, f: string, rest: seq<string>, cache: Cache)
    requires f in fs && fs[f].Readable? && ProcessLines(fs, fs[f].lines, cache).aborted
    ensures ProcessFiles(fs, [f] + rest, cache) == ProcessLines(fs, fs[f].lines, cache).cache
  {
    assert ([f] + rest)[0] == f;
  }

  /** A tag file that does not exist is skipped: leaving it out of the list
      changes nothing. */
  lemma {:induction false} MissingFileSkipped(fs: FileSystem, files: seq<string>, k: nat, cache: Cache)
    requires k < |files| && files[k] !in fs
    ensures ProcessFiles(fs, files, cache) == ProcessFiles(fs, files[..k] + files[k + 1..], cache)
  {
    if k == 0 {
      assert files[..0] + files[1..] == files[1..];
    } else {
      var rest := files[1..];
      assert rest[..k - 1] + rest[k..] == (files[..k] + files[k + 1..])[1..];
      assert (files[..k] + files[k + 1..])[0] == files[0];
      if files[0] !in fs {
        MissingFileSkipped(fs, rest, k - 1, cache);
      } else if fs[files[0]].Readable? {
        var r := ProcessLines(fs, fs[files[0]].lines, cache);
        if !r.aborted {
          MissingFileSkipped(fs, rest, k - 1, r.cache);
        }
      }
    }
  }

  /** A later tag file overrides an earlier one: in the rebuild from `[first,
      second]`, a symbol with a record in `second` resolves as `second`'s last
      record says, and otherwise as `first`'s. */
  lemma LaterFileWins(fs: FileSystem, first: string, second: string, symbol: string)
    requires first in fs && fs[first].Readable? && second in fs && fs[second].Readable?
    requires !ProcessLines(fs, fs[first].lines, map[]).aborted
    requires !ProcessLines(fs, fs[second].lines, ProcessLines(fs, fs[first].lines, map[]).cache).aborted
    ensures var out := Rebuild(fs, [first, second]);
            && (LastInsert(fs, fs[second].lines, symbol).Some? ==>
                  symbol in out && out[symbol] == LastInsert(fs, fs[second].lines, symbol).value)
            && (LastInsert(fs, fs[second].lines, symbol).None? ==>
                  match LastInsert(fs, fs[first].lines, symbol)
                  case Some(loc) => symbol in out && out[symbol] == loc
                  case None => symbol !in out)
  {
    var mid := ProcessLines(fs, fs[first].lines, map[]);
    assert [first, second][1..] == [second];
    assert [second][1..] == [];
    assert ProcessFiles(fs, [second], mid.cache) == ProcessLines(fs, fs[second].lines, mid.cache).cache;
    assert Rebuild(fs, [first, second]) == ProcessLines(fs, fs[second].lines, mid.cache).cache;
    LastRecordWins(fs, fs[first].lines, map[], symbol);
    LastRecordWins(fs, fs[second].lines, mid.cache, symbol);
  }

  /** The symbols a run of lines adds are the symbols of its records. */
  lemma {:induction false} KeysFromLines(fs: FileSystem, lines: seq<string>, cache: Cache, symbol: string)
    requires symbol in ProcessLines(fs, lines, cache).cache && symbol !in cache
    ensures exists j :: 0 <= j < |lines| && Reconcile(fs, lines[j]).Insert? && Reconcile(fs, lines[j]).symbol == symbol
  {
    var step := Reconcile(fs, lines[0]);
    if !(step.Insert? && step.symbol == symbol) {
      KeysFromLines(fs, lines[1..], Apply(step, cache), symbol);
      var j :| 0 <= j < |lines[1..]| && Reconcile(fs, lines[1..][j]).Insert? && Reconcile(fs, lines[1..][j]).symbol == symbol;
      assert lines[1..][j] == lines[j + 1];
    }
  }

  /** A record of `symbol` in one of the given tag files that exist. */
  ghost predicate RecordedIn(fs: FileSystem, files: seq<string>, symbol: string) {
    exists f, j :: f in files && f in fs && fs[f].Readable? && 0 <= j < |fs[f].lines|
      && Reconcile(fs, fs[f].lines[j]).Insert? && Reconcile(fs, fs[f].lines[j]).symbol == symbol
  }

  /** Nothing survives from before the rebuild: every symbol in the rebuilt
      cache has a record in one of the tag files of this call. */
  lemma {:induction false} RebuildOnlyFromInputs(fs: FileSystem, files: seq<string>, cache: Cache, symbol: string)
    requires symbol in ProcessFiles(fs, files, cache) && symbol !in cache
    ensures RecordedIn(fs, files, symbol)
  {
    if files[0] !in fs {
      RebuildOnlyFromInputs(fs, files[1..], cache, symbol);
      RecordedInTail(fs, files, symbol);
    } else {
      var f := files[0];
      var r := ProcessLines(fs, fs[f].lines, cache);
      if symbol in r.cache {
        KeysFromLines(fs, fs[f].lines, cache, symbol);
        var j :| 0 <= j < |fs[f].lines| && Reconcile(fs, fs[f].lines[j]).Insert? && Reconcile(fs, fs[f].lines[j]).symbol == symbol;
        assert f in files;
      } else {
        RebuildOnlyFromInputs(fs, files[1..], r.cache, symbol);
        RecordedInTail(fs, files, symbol);
      }
    }
  }

  lemma RecordedInTail(fs: FileSystem, files: seq<string>, symbol: string)
    requires files != [] && RecordedIn(fs, files[1..], symbol)
    ensures RecordedIn(fs, files, symbol)
  {
    var f, j :| f in files[1..] && f in fs && fs[f].Readable? && 0 <= j < |fs[f].lines|
      && Reconcile(fs, fs[f].lines[j]).Insert? && Reconcile(fs, fs[f].lines[j]).symbol == symbol;
    assert f in files;
  }
}
