/** The tab bookkeeping of main_window.py: opening a file (or switching to the
    tab that already shows it), closing a tab onto the closed-file stack,
    reopening the most recently closed file; and the function list's own
    resolution of a ctags locator, which differs from the tag cache's. */
module MainWindow {
  import opened PyString
  import opened Locators
  import TagCache

  /** A QScintilla cursor position `(line, index)`. */
  datatype Position = Position(line: int, index: int)

  /** One editor tab: its `file_path` attribute (absent for a new file), its
      text as lines, its cursor and its modified flag. */
  datatype Tab = Tab(path: Option<string>, text: seq<string>, cursor: Position, modified: bool)

  /** An entry of `closed_files`: `(file_path, text, cursor)`. */
  datatype ClosedFile = ClosedFile(path: string, text: seq<string>, cursor: Position)

  /** The buttons of the save-changes question. */
  datatype Reply = Save | Discard | Cancel

  /** The window state: the tabs in order, `tabWidget.currentIndex()` and
      `closed_files` (top of the stack last). */
  datatype Window = Window(tabs: seq<Tab>, current: int, closed: seq<ClosedFile>)

  /** The tab `new_file` adds. */
  const Untitled := Tab(None, [""], Position(0, 0), false)

  /** The first tab at or after `i` whose editor has `file_path == path`. */
  function TabWith(tabs: seq<Tab>, path: string, i: nat): (r: Option<nat>)
    decreases |tabs| - i
    ensures r.Some? ==> i <= r.value < |tabs| && tabs[r.value].path == Some(path)
    ensures r.Some? ==> forall j :: i <= j < r.value ==> tabs[j].path != Some(path)
    ensures r.None? ==> forall j :: i <= j < |tabs| ==> tabs[j].path != Some(path)
  {
    if i >= |tabs| then None
    else if tabs[i].path == Some(path) then Some(i)
    else TabWith(tabs, path, i + 1)
  }

  /** No two tabs show the same file. */
  predicate DistinctPaths(tabs: seq<Tab>) {
    forall i, j :: 0 <= i < j < |tabs| && tabs[i].path.Some? ==> tabs[i].path != tabs[j].path
  }

  /** What the window keeps: there is always a current tab (closing the last
      one opens "Untitled"), no file is open twice, and every recorded path
      is non-empty. */
  predicate Valid(w: Window) {
    && 0 <= w.current < |w.tabs|
    && DistinctPaths(w.tabs)
    && (forall i :: 0 <= i < |w.tabs| && w.tabs[i].path.Some? ==> w.tabs[i].path.value != [])
    && (forall i :: 0 <= i < |w.closed| ==> w.closed[i].path != [])
  }

  function Initial(): Window {
    Window([Untitled], 0, [])
  }

  /** `get_current_editor`: the current tab, if there is one. */
  function CurrentEditor(w: Window): (r: Option<nat>)
    ensures r.Some? ==> r.value < |w.tabs| && r.value == w.current
    ensures r.None? ==> !(0 <= w.current < |w.tabs|)
  {
    if 0 <= w.current < |w.tabs| then Some(w.current) else None
  }

  // ---------------------------------------------------------------------
  // open_file, close_file, reopen_last_closed_file

  /** `open_file(file_path, cursor_pos)`. An empty path asks the file dialog,
      whose answer is `chosen` (empty when cancelled). A path already open
      only switches tabs; otherwise the file is read into a new last tab,
      which becomes current; a read error leaves the window as it is. */
  function Opened(w: Window, fs: FileSystem, filePath: string, cursor: Position, chosen: string): Window {
    var path := if filePath == [] then chosen else filePath;
    if path == [] then w
    else match TabWith(w.tabs, path, 0)
      case Some(k) => w.(current := k)
      case None =>
        if CanRead(fs, path) then
          w.(tabs := w.tabs + [Tab(Some(path), fs[path].lines, cursor, false)], current := |w.tabs|)
        else w
  }

  function RemoveAt(tabs: seq<Tab>, index: nat): (r: seq<Tab>)
    requires index < |tabs|
    ensures |r| == |tabs| - 1
    ensures forall j :: 0 <= j < index ==> r[j] == tabs[j]
    ensures forall j :: index <= j < |r| ==> r[j] == tabs[j + 1]
  {
    tabs[..index] + tabs[index + 1..]
  }

  /** The current index after `removeTab(index)` leaves `count > 0` tabs
      (Qt's default: the tab to the right of a removed current tab, or the
      new last tab). */
  function CurrentAfterRemove(current: int, index: nat, count: nat): (r: int)
    requires count > 0 && index <= count
    ensures 0 <= current <= count ==> 0 <= r < count
  {
    if index < current then current - 1
    else if index > current then current
    else if index < count then index
    else count - 1
  }

  /** The part of `close_file` after the save question: a tab with a path is
      pushed onto the stack, the tab is removed, and "Untitled" replaces the
      last tab. */
  function CloseTab(w: Window, index: nat): Window
    requires index < |w.tabs|
  {
    var t := w.tabs[index];
    var closed := if t.path.Some? then w.closed + [ClosedFile(t.path.value, t.text, t.cursor)] else w.closed;
    var tabs := RemoveAt(w.tabs, index);
    if tabs == [] then Window([Untitled], 0, closed)
    else Window(tabs, CurrentAfterRemove(w.current, index, |tabs|), closed)
  }

  /** `close_file(index)` as written. For a modified tab, Cancel returns, and
      Save calls `self.save_file(editor)`, which takes no argument: the call
      raises before anything changes. Only Discard (or an unmodified tab)
      closes. */
  function Closed(w: Window, index: nat, reply: Reply): Window
    requires index < |w.tabs|
  {
    if w.tabs[index].modified && reply != Discard then w else CloseTab(w, index)
  }

  /** `close_file` with the save done by `save_file_for_editor(editor)`, which
      reports the path it saved under (`savedAs`), or None when the save was
      cancelled or failed; the tab closes only after a save succeeded. */
  function ClosedFixed(w: Window, index: nat, reply: Reply, savedAs: Option<string>): Window
    requires index < |w.tabs|
  {
    var t := w.tabs[index];
    if !t.modified || reply == Discard then CloseTab(w, index)
    else if reply == Cancel || savedAs.None? then w
    else
      var path := if t.path.Some? then t.path.value else savedAs.value;
      CloseTab(w.(tabs := w.tabs[index := t.(path := Some(path), modified := false)]), index)
  }

  /** `reopen_last_closed_file` as written: pop the top entry, `open_file` its
      path at its cursor, then put its text into whatever editor is current
      and mark it saved. Replacing an editor's whole text puts its caret at
      the start, so the saved cursor does not survive. */
  function Reopened(w: Window, fs: FileSystem): Window {
    if w.closed == [] then w
    else
      var c := w.closed[|w.closed| - 1];
      var afterOpen := Opened(w.(closed := w.closed[..|w.closed| - 1]), fs, c.path, c.cursor, "");
      match CurrentEditor(afterOpen)
      case Some(k) => afterOpen.(tabs := afterOpen.tabs[k := afterOpen.tabs[k].(text := c.text, cursor := Position(0, 0), modified := false)])
      case None => afterOpen
  }

  /** `reopen_last_closed_file` restoring the text only into the tab that
      shows the popped file. */
  function ReopenedFixed(w: Window, fs: FileSystem): Window {
    if w.closed == [] then w
    else
      var c := w.closed[|w.closed| - 1];
      var afterOpen := Opened(w.(closed := w.closed[..|w.closed| - 1]), fs, c.path, c.cursor, "");
      match CurrentEditor(afterOpen)
      case Some(k) =>
        if afterOpen.tabs[k].path == Some(c.path) then
          afterOpen.(tabs := afterOpen.tabs[k := afterOpen.tabs[k].(text := c.text, cursor := Position(0, 0), modified := false)])
        else afterOpen
      case None => afterOpen
  }

  // ---------------------------------------------------------------------
  // Properties of the tab operations

  lemma InitialValid()
    ensures Valid(Initial())
  {
  }

  lemma {:induction false} OpenedValid(w: Window, fs: FileSystem, filePath: string, cursor: Position, chosen: string)
    requires Valid(w)
    ensures Valid(Opened(w, fs, filePath, cursor, chosen))
    ensures |Opened(w, fs, filePath, cursor, chosen).tabs| >= |w.tabs|
    ensures Opened(w, fs, filePath, cursor, chosen).closed == w.closed
  {
    var path := if filePath == [] then chosen else filePath;
    if path != [] && TabWith(w.tabs, path, 0).None? && CanRead(fs, path) {
      var tabs := w.tabs + [Tab(Some(path), fs[path].lines, cursor, false)];
      forall i, j | 0 <= i < j < |tabs| && tabs[i].path.Some? ensures tabs[i].path != tabs[j].path {
        if j < |w.tabs| {
          assert tabs[i] == w.tabs[i] && tabs[j] == w.tabs[j];
        } else {
          assert tabs[i] == w.tabs[i];
        }
      }
    }
  }

  /** Opening a file that some tab already shows switches to that tab and
      adds none. */
  lemma AlreadyOpen(w: Window, fs: FileSystem, path: string, cursor: Position, chosen: string, k: nat)
    requires Valid(w) && path != []
    requires k < |w.tabs| && w.tabs[k].path == Some(path)
    ensures Opened(w, fs, path, cursor, chosen) == w.(current := k)
  {
    var found := TabWith(w.tabs, path, 0);
    assert found.Some? && found.value <= k;
  }

  /** A file no tab shows is read into a new last tab, unmodified, at the
      given cursor, and that tab becomes current; a read error changes
      nothing. */
  lemma OpenNew(w: Window, fs: FileSystem, path: string, cursor: Position, chosen: string)
    requires path != []
    requires forall i :: 0 <= i < |w.tabs| ==> w.tabs[i].path != Some(path)
    ensures CanRead(fs, path) ==>
              Opened(w, fs, path, cursor, chosen) ==
              w.(tabs := w.tabs + [Tab(Some(path), fs[path].lines, cursor, false)], current := |w.tabs|)
    ensures !CanRead(fs, path) ==> Opened(w, fs, path, cursor, chosen) == w
  {
    assert TabWith(w.tabs, path, 0).None?;
  }

  lemma {:induction false} CloseTabValid(w: Window, index: nat)
    requires Valid(w) && index < |w.tabs|
    ensures Valid(CloseTab(w, index))
  {
    var t := w.tabs[index];
    var tabs := RemoveAt(w.tabs, index);
    forall i, j | 0 <= i < j < |tabs| && tabs[i].path.Some? ensures tabs[i].path != tabs[j].path {
      var i0 := if i < index then i else i + 1;
      var j0 := if j < index then j else j + 1;
      assert tabs[i] == w.tabs[i0] && tabs[j] == w.tabs[j0];
    }
    forall i | 0 <= i < |tabs| && tabs[i].path.Some? ensures tabs[i].path.value != [] {
      assert tabs[i] == w.tabs[if i < index then i else i + 1];
    }
  }

  lemma ClosedValid(w: Window, index: nat, reply: Reply)
    requires Valid(w) && index < |w.tabs|
    ensures Valid(Closed(w, index, reply))
  {
    CloseTabValid(w, index);
  }

  /** Cancel, and (as written) Save, on a modified tab leave everything as it
      is. */
  lemma PromptKeepsTab(w: Window, index: nat, reply: Reply)
    requires index < |w.tabs| && w.tabs[index].modified && reply != Discard
    ensures Closed(w, index, reply) == w
  {
  }

  /** A closed tab is removed, pushed onto the stack exactly when it has a
      path, and the last tab is replaced by "Untitled". */
  lemma ClosePushes(w: Window, index: nat, reply: Reply)
    requires Valid(w) && index < |w.tabs|
    requires !w.tabs[index].modified || reply == Discard
    ensures var t := w.tabs[index];
            Closed(w, index, reply).closed ==
              w.closed + (if t.path.Some? then [ClosedFile(t.path.value, t.text, t.cursor)] else [])
    ensures Closed(w, index, reply).tabs ==
              if |w.tabs| == 1 then [Untitled] else RemoveAt(w.tabs, index)
  {
  }

  /** With an empty stack, reopening does nothing. */
  lemma ReopenEmpty(w: Window, fs: FileSystem)
    requires w.closed == []
    ensures Reopened(w, fs) == w && ReopenedFixed(w, fs) == w
  {
  }

  /** Reopening pops the most recently closed file (LIFO). */
  lemma ReopenPops(w: Window, fs: FileSystem)
    requires w.closed != []
    ensures Reopened(w, fs).closed == w.closed[..|w.closed| - 1]
    ensures ReopenedFixed(w, fs).closed == w.closed[..|w.closed| - 1]
  {
  }

  /** Closing a saved tab and reopening it, while its file is still
      readable, brings the tab back, as the last tab and current, with the
      text it had, unmodified and with the caret at the start; the other tabs
      and the stack are as before. Both versions of reopen agree here. */
  lemma {:induction false} CloseThenReopen(w: Window, index: nat, reply: Reply, fs: FileSystem)
    requires Valid(w) && index < |w.tabs|
    requires w.tabs[index].path.Some? && CanRead(fs, w.tabs[index].path.value)
    requires !w.tabs[index].modified || reply == Discard
    ensures var t := w.tabs[index].(cursor := Position(0, 0), modified := false);
            var rest := if |w.tabs| == 1 then [Untitled] else RemoveAt(w.tabs, index);
            var r := Reopened(Closed(w, index, reply), fs);
            r == ReopenedFixed(Closed(w, index, reply), fs) &&
            r == Window(rest + [t], |rest|, w.closed)
  {
    var t := w.tabs[index];
    var path := t.path.value;
    var c := Closed(w, index, reply);
    var rest := if |w.tabs| == 1 then [Untitled] else RemoveAt(w.tabs, index);
    assert c.tabs == rest;
    assert c.closed == w.closed + [ClosedFile(path, t.text, t.cursor)];
    assert c.closed[..|c.closed| - 1] == w.closed;
    forall i | 0 <= i < |rest| ensures rest[i].path != Some(path) {
      if |w.tabs| > 1 {
        var i0 := if i < index then i else i + 1;
        assert rest[i] == w.tabs[i0];
      }
    }
    OpenNew(c.(closed := w.closed), fs, path, t.cursor, "");
    var afterOpen := Opened(c.(closed := w.closed), fs, path, t.cursor, "");
    assert afterOpen.tabs == rest + [Tab(Some(path), fs[path].lines, t.cursor, false)];
    assert afterOpen.current == |rest|;
  }

  /** As written, when the popped file cannot be read, its text overwrites
      the current tab, here a different modified file, which is also marked
      saved and loses its caret position. */
  lemma ReopenOverwritesOtherTab()
    ensures var other := Tab(Some("b.c"), ["edited"], Position(3, 1), true);
            var w := Window([other], 0, [ClosedFile("a.c", ["old"], Position(0, 0))]);
            Reopened(w, map[]) == Window([Tab(Some("b.c"), ["old"], Position(0, 0), false)], 0, [])
  {
    var other := Tab(Some("b.c"), ["edited"], Position(3, 1), true);
    var w := Window([other], 0, [ClosedFile("a.c", ["old"], Position(0, 0))]);
    assert TabWith(w.tabs, "a.c", 0) == None by {
      assert w.tabs[0].path != Some("a.c");
    }
  }

  /** The corrected reopen never changes a tab that shows another file, and
      never changes the tabs at all when the popped file cannot be read. */
  lemma ReopenedFixedKeepsOtherTabs(w: Window, fs: FileSystem)
    requires Valid(w) && w.closed != []
    ensures var c := w.closed[|w.closed| - 1];
            var r := ReopenedFixed(w, fs);
            |r.tabs| >= |w.tabs| &&
            (forall i :: 0 <= i < |w.tabs| && w.tabs[i].path != Some(c.path) ==> r.tabs[i] == w.tabs[i])
    ensures var c := w.closed[|w.closed| - 1];
            TabWith(w.tabs, c.path, 0).None? && !CanRead(fs, c.path) ==> ReopenedFixed(w, fs).tabs == w.tabs
  {
    var c := w.closed[|w.closed| - 1];
    OpenedValid(w.(closed := w.closed[..|w.closed| - 1]), fs, c.path, c.cursor, "");
    var afterOpen := Opened(w.(closed := w.closed[..|w.closed| - 1]), fs, c.path, c.cursor, "");
    assert forall i :: 0 <= i < |w.tabs| ==> afterOpen.tabs[i] == w.tabs[i];
  }

  /** As written, Save on a modified tab keeps the tab open and pushes
      nothing. */
  lemma SaveReplyKeepsTab()
    ensures var t := Tab(Some("a.c"), ["x"], Position(0, 0), true);
            var w := Window([t, Untitled], 0, []);
            Closed(w, 0, Save) == w
  {
  }

  /** The corrected close: after a successful save the tab closes exactly
      as a saved tab does, with its saved path on the stack; a failed or
      cancelled save keeps it. */
  lemma ClosedFixedSaves(w: Window, index: nat, savedAs: Option<string>)
    requires Valid(w) && index < |w.tabs| && w.tabs[index].modified
    ensures savedAs.Some? ==>
              var t := w.tabs[index];
              var saved := t.(path := Some(if t.path.Some? then t.path.value else savedAs.value), modified := false);
              ClosedFixed(w, index, Save, savedAs) == CloseTab(w.(tabs := w.tabs[index := saved]), index) &&
              ClosedFixed(w, index, Save, savedAs).closed ==
                w.closed + [ClosedFile(saved.path.value, t.text, t.cursor)]
    ensures savedAs.None? ==> ClosedFixed(w, index, Save, savedAs) == w
    ensures ClosedFixed(w, index, Discard, savedAs) == Closed(w, index, Discard)
  {
  }

  // ---------------------------------------------------------------------
  // The function list's locator resolution (`on_item_double_clicked`)

  /** Where a double-click on a function-list item jumps, if anywhere. The
      pattern form takes `source_line.find(symbol)` unclamped (-1 when the
      symbol is absent); the digit form takes the symbol's offset on that
      line, or 0 past the end of the file; a read error, an unmatched pattern
      and any other locator give no jump. */
  function FunctionListTarget(fs: FileSystem, path: string, info: string, symbol: string): Option<TagCache.Location> {
    if IsPatternLocator(info) then
      if !CanRead(fs, path) then None
      else
        var lines := fs[path].lines;
        match FirstLineContaining(lines, PatternOf(info))
        case Some(n) => Some(TagCache.Location(path, n, Find(lines[n - 1], symbol, 0)))
        case None => None
    else if IsDigits(info) then
      if !CanRead(fs, path) then None
      else
        var n := DecimalValue(info);
        Some(TagCache.Location(path, n, ColumnOnLine(fs[path].lines, n, symbol)))
    else None
  }

  /** The body of `on_item_double_clicked` once it has an editor. */
  method FunctionListJump(fs: FileSystem, path: string, info: string, symbol: string)
    returns (target: Option<TagCache.Location>)
    ensures target == FunctionListTarget(fs, path, info, symbol)
  {
    target := None;
    if IsPatternLocator(info) {
      if !CanRead(fs, path) {
        return;
      }
      var lineNumber, column := ScanForPattern(fs[path].lines, PatternOf(info), symbol);
      if lineNumber.Some? {
        target := Some(TagCache.Location(path, lineNumber.value, column));
      }
    } else if IsDigits(info) {
      var n := DecimalValue(info);
      if !CanRead(fs, path) {
        return;
      }
      var column := ScanForLine(fs[path].lines, n, symbol);
      target := Some(TagCache.Location(path, n, column));
    }
  }

  /** A pattern locator jumps iff some line's stripped text contains the
      pattern, to the first such line, at the symbol's first offset there or
      -1. */
  lemma FunctionListPattern(fs: FileSystem, path: string, info: string, symbol: string)
    requires IsPatternLocator(info) && CanRead(fs, path)
    ensures var lines := fs[path].lines;
            var r := FunctionListTarget(fs, path, info, symbol);
            (r.Some? <==> exists j :: 0 <= j < |lines| && LineHas(lines[j], PatternOf(info))) &&
            (r.Some? ==>
               r.value.file == path && 1 <= r.value.line <= |lines| &&
               LineHas(lines[r.value.line - 1], PatternOf(info)) &&
               (forall j :: 0 <= j < r.value.line - 1 ==> !LineHas(lines[j], PatternOf(info))) &&
               (r.value.column == -1 || IsMatchAt(lines[r.value.line - 1], symbol, r.value.column)))
  {
    var lines := fs[path].lines;
    var found := FirstLineContaining(lines, PatternOf(info));
    if found.Some? {
      assert LineHas(lines[found.value - 1], PatternOf(info));
    }
  }

  /** A digit locator always jumps to that line; the column is the symbol's
      offset there, 0 past the end of the file. */
  lemma FunctionListNumeric(fs: FileSystem, path: string, info: string, symbol: string)
    requires IsDigits(info) && CanRead(fs, path)
    ensures var n := DecimalValue(info);
            var lines := fs[path].lines;
            FunctionListTarget(fs, path, info, symbol) ==
              Some(TagCache.Location(path, n, if 1 <= n <= |lines| then Find(lines[n - 1], symbol, 0) else 0))
  {
    DigitsAreNoPattern(info);
  }

  /** A read error or a locator of neither form gives no jump. */
  lemma FunctionListFailures(fs: FileSystem, path: string, info: string, symbol: string)
    requires !CanRead(fs, path) || (!IsPatternLocator(info) && !IsDigits(info))
    ensures FunctionListTarget(fs, path, info, symbol).None?
  {
  }

  /** Against the tag cache (code_editor.py): where the cache inserts an
      entry the function list jumps to the same line, with the cache's column
      being the function list's clamped at 0; where the cache's reading of
      the file aborts the update, the function list makes no jump. */
  lemma FunctionListAgainstTagCache(fs: FileSystem, path: string, info: string, symbol: string)
    requires IsPatternLocator(info) || IsDigits(info)
    ensures var step := if IsPatternLocator(info) then TagCache.ByPattern(fs, symbol, path, info, TagCache.Skip)
                        else TagCache.AtLine(fs, symbol, path, DecimalValue(info));
            var r := FunctionListTarget(fs, path, info, symbol);
            (step.Abort? <==> !CanRead(fs, path)) &&
            (step.Abort? ==> r.None?) &&
            (step.Insert? <==> r.Some?) &&
            (step.Insert? ==>
               step.symbol == symbol && r.value.column >= -1 &&
               step.loc == r.value.(column := Clamp(r.value.column)))
  {
    if IsDigits(info) {
      DigitsAreNoPattern(info);
    }
  }

  /** The two differ: a pattern match on a line without the symbol gives
      column -1 in the function list and 0 in the tag cache. */
  lemma UnclampedColumn()
    ensures var fs := map["a.c" := Readable(["f"])];
            FunctionListTarget(fs, "a.c", "/^f$/;\"", "g") == Some(TagCache.Location("a.c", 1, -1)) &&
            TagCache.ByPattern(fs, "g", "a.c", "/^f$/;\"", TagCache.Skip) ==
              TagCache.Insert("g", TagCache.Location("a.c", 1, 0))
  {
    SampleLocator();
    SampleLine();
  }

  /** The locator of the example above and its pattern. */
  lemma SampleLocator()
    ensures IsPatternLocator("/^f$/;\"") && PatternOf("/^f$/;\"") == "f"
  {
    var info := "/^f$/;\"";
    assert info[..2] == "/^";
    assert info[|info| - 4..] == "$/;\"";
    assert info[2..|info| - 4] == "f";
    assert LStrip("f") == "f" && RStrip("f") == "f";
  }

  /** The line of the example above matches the pattern and lacks the symbol. */
  lemma SampleLine()
    ensures FirstLineContaining(["f"], "f") == Some(1) && Find("f", "g", 0) == -1
  {
    assert LStrip("f") == "f" && RStrip("f") == "f";
    assert Strip("f") == "f";
    assert IsMatchAt("f", "f", 0);
    assert Contains("f", "f");
    assert !IsMatchAt("f", "g", 0);
  }

  // ---------------------------------------------------------------------
  // The window

  /** The loop of `open_file` over the tabs. */
  method FindTab(tabs: seq<Tab>, path: string) returns (k: Option<nat>)
    ensures k == TabWith(tabs, path, 0)
  {
    var i := 0;
    while i < |tabs|
      invariant 0 <= i <= |tabs|
      invariant TabWith(tabs, path, 0) == TabWith(tabs, path, i)
    {
      if tabs[i].path == Some(path) {
        return Some(i);
      }
      i := i + 1;
    }
    return None;
  }

  class MainWindow {
    var tabs: seq<Tab>
    var current: int
    var closedFiles: seq<ClosedFile>

    function State(): Window
      reads this
    {
      Window(tabs, current, closedFiles)
    }

    /** A window whose restored session was empty, after `new_file`. */
    constructor ()
      ensures State() == Initial()
    {
      tabs, current, closedFiles := [Untitled], 0, [];
    }

    method GetCurrentEditor() returns (k: Option<nat>)
      ensures k == CurrentEditor(State())
    {
      if 0 <= current < |tabs| {
        k := Some(current);
      } else {
        k := None;
      }
    }

    method OpenFile(fs: FileSystem, filePath: string, cursor: Position, chosen: string)
      modifies this`tabs, this`current
      ensures State() == Opened(old(State()), fs, filePath, cursor, chosen)
    {
      var path := filePath;
      if path == [] {
        path := chosen;
      }
      if path == [] {
        return;
      }
      var k := FindTab(tabs, path);
      if k.Some? {
        current := k.value;
        return;
      }
      if !CanRead(fs, path) {
        // the error box reports the exception
        return;
      }
      tabs := tabs + [Tab(Some(path), fs[path].lines, cursor, false)];
      current := |tabs| - 1;
    }

    method CloseFile(index: nat, reply: Reply)
      requires index < |tabs|
      modifies this
      ensures State() == Closed(old(State()), index, reply)
    {
      var t := tabs[index];
      if t.modified && reply != Discard {
        return;
      }
      if t.path.Some? {
        closedFiles := closedFiles + [ClosedFile(t.path.value, t.text, t.cursor)];
      }
      var remaining := RemoveAt(tabs, index);
      if remaining == [] {
        tabs, current := [Untitled], 0;
      } else {
        tabs, current := remaining, CurrentAfterRemove(current, index, |remaining|);
      }
    }

    method ReopenLastClosedFile(fs: FileSystem)
      modifies this
      ensures State() == Reopened(old(State()), fs)
    {
      if closedFiles == [] {
        return;
      }
      var c := closedFiles[|closedFiles| - 1];
      closedFiles := closedFiles[..|closedFiles| - 1];
      OpenFile(fs, c.path, c.cursor, "");
      var k := GetCurrentEditor();
      if k.Some? {
        tabs := tabs[k.value := tabs[k.value].(text := c.text, cursor := Position(0, 0), modified := false)];
      }
    }

    /** `on_item_double_clicked` for an item whose data, if any, is
        `(file_path, line_info)`; the result is where the current editor is
        asked to jump. */
    method OnItemDoubleClicked(fs: FileSystem, data: Option<(string, string)>, symbol: string)
      returns (target: Option<TagCache.Location>)
      ensures data.None? || CurrentEditor(State()).None? ==> target.None?
      ensures data.Some? && CurrentEditor(State()).Some? ==>
                target == FunctionListTarget(fs, data.value.0, data.value.1, symbol)
    {
      target := None;
      if data.None? {
        return;
      }
      var editor := GetCurrentEditor();
      if editor.Some? {
        target := FunctionListJump(fs, data.value.0, data.value.1, symbol);
      }
    }
  }
}
