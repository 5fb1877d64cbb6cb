# TaaraMCU-IDE editor core in Dafny

A model of the logic inside the TaaraMCU-IDE editor, a PyQt6/QScintilla IDE
for STM32 microcontroller projects, with proofs of what that logic
guarantees. The model covers:

- **Tag cache and go-to-definition** (`code_editor.py`).
  - `update_tags_cache` reads ctags tag files into a `symbol -> (file, line, column)` map.
  - `gotoDefinition` decides when to run the tagger, when to rebuild the cache and what a lookup reports.
- **Comment toggle** (`comment_lines`, `code_editor.py`).
- **Main window** (`main_window.py`):
  - the tab list with its already-open check;
  - the stack of closed files and "reopen last closed file";
  - the function list's own locator resolution.
- **Plain-text Find All, Count and the Replace guard** (`dialogs/find_dialog.py`).
- **Terminal** (`Terminal.py`): command history with an up/down cursor, and a FIFO command queue with one command running at a time.
- **Project source list, build command and flags** (`Compiler.py`, class `ProjectManager`).
- **Go-to-line dialog's validation** (`dialogs/goto_line_dialog.py`).

## Modules

- **`PyString`, `Paths`:** the Python `str` methods and the `pathlib.Path` parts the code uses. `lower`, `isdigit`, `isalnum` and `strip` are ASCII.
- **`Locators`:** the ctags locator forms and the two scans over a source file's lines (first line containing a pattern, symbol column on a given line). `code_editor.py` and `main_window.py` share them.
- **`TagCache`:** what `update_tags_cache` computes, as functions over a file system value, with the lemmas about it.
- **`CodeEditor`:** the class `Editor`, whose methods fill `tagsCache` and `doc` with loops, proved against `TagCache`. It also holds `gotoDefinition` and `comment_lines`.
- **`FindDialog`:** the Find All loop as a method, proved against a function, and the lemmas about matches, positions, Count and Replace.
- **`Terminal`:** the class `Terminal`. Each method's new state is a function of the old state. That function keeps an invariant `Valid` (history cursor in range, no adjacent duplicate in history or queue, nothing queued while idle), and the lemmas prove FIFO order.
- **`MainWindow`:** the class `MainWindow` (tabs, current index, closed-file stack), its spec functions and lemmas, and the function-list jump.
- **`Compiler`:** the class `ProjectManager` and the lemmas about its list operations.
- **`GoToLine`:** a pure function.

## The model's inputs

- **Files:** a `FileSystem` is a map from path to `Readable(lines)` or `Unreadable`. A path that is absent does not exist.
- **The tagger:** `generate_ctags()` is the boolean `taggerOk`, together with the file system `fsAfter` it leaves behind.
- **Widget state** (the line-edit text, the message-box reply, the file-dialog answer) is passed as parameters.
- **Terminal commands:** the `shlex` tokens of the submitted command are a parameter. So is the output of a finished worker.

## Model

| member | source | states |
|---|---|---|
| PyString.ParseInt | code_editor.py:427 | `int()` succeeds exactly on stripped text of decimal digits with an optional sign; unsigned or `+` digits give their decimal value, `-` digits its negation; anything else is None, where Python raises |
| PyString.Split | code_editor.py:410 | `split("\t")` gives at least one piece and no piece contains the separator |
| PyString.JoinSplit | code_editor.py:410 | joining the pieces of a split with the separator gives back the original line |
| PyString.FindIsFirst | code_editor.py:434 | `find` returns the first match at or after `start`, and -1 only when there is none |
| PyString.SplitJoinTokens | Compiler.py:253 | splitting the space-joined flags on whitespace gives back the same flags when each is a non-empty token without whitespace |
| PyString.OccurrencesExact | dialogs/find_dialog.py:349-366 | the occurrence list holds exactly the match positions from `i` on, strictly increasing |
| PyString.CountAtMostOccurrences | dialogs/find_dialog.py:295-298 | the non-overlapping `str.count` is at most the number of overlapping occurrences |
| PyString.CountZeroIff | dialogs/find_dialog.py:295-298 | `str.count` is 0 exactly when the text has no occurrence |
| Paths.Suffix | Compiler.py:189 | `Path.suffix` is empty or a dot followed by one or more characters with no further dot |
| Locators.DigitsAreNoPattern | code_editor.py:450-460 | an all-digit locator never has the pattern form, so the two branches never overlap |
| Locators.PatternOf | code_editor.py:441 | `line_info[2:-4].strip()` is at most the locator's length minus the six framing characters |
| Locators.FirstLineContaining | code_editor.py:453-455 | the 1-based line found is the first whose stripped text contains the pattern; None means no line does |
| Locators.ColumnOnLine | code_editor.py:463-466 | on an existing line the column is -1 exactly when the symbol does not occur there, and otherwise the first offset where it occurs; for a line number outside the file it stays 0 |
| Locators.Clamp | code_editor.py:434-436 | a -1 from `find` becomes 0; any found offset is kept; the result is never negative |
| Locators.ScanForPattern | code_editor.py:452-459 | the enumerate loop stops at the first matching line and returns it with `find(symbol)` on it, or no line and column 0 |
| Locators.ScanForLine | code_editor.py:463-469 | the enumerate loop gives `find(symbol)` on line `n`, or 0 when the file has fewer lines |
| TagCache.LineFieldIndex | code_editor.py:425-428 | the `line:` search stops at the first field starting with `line:`, or at the end |
| TagCache.LineFieldHasTwoPieces | code_editor.py:427 | `field.split(":")[1]` exists for a `line:` field |
| TagCache.HeaderAndShortLinesSkipped | code_editor.py:408-412 | a `!` line, or one with fewer than three tab-separated fields after strip, adds no entry |
| TagCache.SkippedLineIsTransparent | code_editor.py:408-412 | removing a skipped line from a tag file changes nothing about the result, so it never stops later lines |
| TagCache.PatternLocator | code_editor.py:450-459 | a non-macro `/^P$/;"` record is inserted exactly when some stripped line contains P. The line is the first such; the column is the symbol's first offset in the raw line, or 0 |
| TagCache.ColumnIsFirstOffset | code_editor.py:456-458 | the clamped `find` is the symbol's first offset, or 0 when it is absent |
| TagCache.NumericLocator | code_editor.py:460-469 | a non-macro all-digit record is always inserted at that line. The column is the symbol's first offset there, or 0 if the symbol is absent or the file has no such line |
| TagCache.MacroLineField | code_editor.py:423-437 | a `d` record with a non-zero `line:N` field is inserted at line N whatever its locator says; the column is the symbol's first offset on that line (0 when absent), and 0 when the file has no line N |
| TagCache.MacroWithoutLineFieldIgnoresNumber | code_editor.py:438-449 | a `d` record without a `line:` field and with a numeric locator adds no entry |
| TagCache.MacroLineZero | code_editor.py:429-449 | a `d` record with `line:0` falls through to the pattern search; when that finds nothing, an entry at line 0, column 0 is still inserted |
| TagCache.BadLineFieldAborts | code_editor.py:427 | a `line:` value `int()` rejects ends the whole update |
| TagCache.UnreadableSourceAborts | code_editor.py:452 | a non-macro record whose source file cannot be opened ends the whole update |
| TagCache.LastRecordWins | code_editor.py:471-472 | after a run of records, a symbol maps to its last inserted location, or keeps its earlier value when no record inserts it |
| TagCache.ProcessOne | code_editor.py:407-474 | one record either aborts with the cache unchanged or applies its insert or skip |
| TagCache.ProcessLinesAppend | code_editor.py:407-474 | processing a file line by line is a left fold that stops at the first abort |
| TagCache.AbortKeepsPrefix | code_editor.py:473-474 | an exception keeps the entries inserted before it and ignores the rest of the file |
| TagCache.AbortSkipsLaterFiles | code_editor.py:402-474 | an aborted tag file ends the update; no later tag file is read |
| TagCache.MissingFileSkipped | code_editor.py:403-404 | a tag file that does not exist is skipped as if it were not listed |
| TagCache.LaterFileWins | code_editor.py:401-472 | rebuilding from `[first, second]` starts empty. A symbol recorded in `second` takes `second`'s last record; otherwise `first`'s; otherwise it is absent |
| TagCache.KeysFromLines | code_editor.py:471-472 | every new key of the cache comes from a record of the file that inserts that symbol |
| TagCache.RebuildOnlyFromInputs | code_editor.py:401-472 | every key of a rebuilt cache is recorded in one of the listed, existing tag files |
| CodeEditor.TagFileList | code_editor.py:382-384 | the editor's own `<path>.tags` comes first; `project.tags` is second exactly when there is a project directory and that file exists |
| CodeEditor.GotoWithoutPath | code_editor.py:362-364 | no file path gives the "no file path" warning; then the cache is untouched and the tagger does not run |
| CodeEditor.GotoUsesExistingCache | code_editor.py:374-394 | on an unmodified editor with a non-empty cache, the lookup uses the existing cache, which stays as it was |
| CodeEditor.GotoTaggerRule | code_editor.py:374-379 | the tagger runs exactly when there is a path, the editor is modified or the cache is empty, and `<path>.tags` is missing. Its failure is the only way to "failed to generate" and leaves the cache alone |
| CodeEditor.GotoLookupAgreesWithCache | code_editor.py:389-397 | a lookup jumps exactly when the word is a key of the resulting cache, to its entry; otherwise it reports the word not found |
| CodeEditor.GotoRebuildsWhenModified | code_editor.py:374-387 | a modified editor whose tag file exists rebuilds the cache from the tag-file list without the tagger |
| CodeEditor.GotoPrefersProjectRecord | code_editor.py:382-394 | with both tag files readable, a word recorded in `project.tags` jumps to that file's last record for it |
| CodeEditor.ReconcileLine | code_editor.py:408-472 | the per-record body of the loop computes exactly `TagCache.Reconcile` |
| CodeEditor.ReconcileMacro | code_editor.py:423-449 | the macro branch with its nested loops computes `TagCache.MacroRecord` |
| CodeEditor.FindLineField | code_editor.py:425-428 | the field loop fails exactly when a `line:` field's value does not parse, and otherwise returns the parsed number or None |
| CodeEditor.ScanPattern | code_editor.py:450-459 | the pattern branch's loop computes `TagCache.ByPattern` |
| CodeEditor.ScanLine | code_editor.py:460-469 | the digit branch's loop computes `TagCache.AtLine` |
| CodeEditor.Editor.constructor | code_editor.py:107-108 | a new editor has no path, is unmodified and has an empty tag cache |
| CodeEditor.Editor.UpdateTagsCache | code_editor.py:399-474 | the cache is cleared and refilled from the tag files, ending as `TagCache.Rebuild` of them |
| CodeEditor.Editor.GotoDefinition | code_editor.py:359-397 | outcome, new cache and whether the tagger ran are those of `Resolve` on the editor's state |
| CodeEditor.ToggleBlock | code_editor.py:250-255 | the toggle keeps the number of lines |
| CodeEditor.AllCommentedAppend | code_editor.py:243-247 | the `all_commented` flag after a line is the flag before it and that line's test |
| CodeEditor.ToggleCommentsWhenSomeLineIsNot | code_editor.py:250-255 | when some trimmed line is not commented, every line gets `"// "` prefixed and the block ends entirely commented |
| CodeEditor.ToggleUncommentsWhenAllAre | code_editor.py:252-253 | when every trimmed line is commented, each becomes `lstrip("/")` then `lstrip()` |
| CodeEditor.LStripMarker | code_editor.py:253 | `lstrip("/")` removes exactly the leading slashes of `"//" + t` when `t` does not start with `/` |
| CodeEditor.RStripCommentOut | code_editor.py:244-255 | a commented trimmed line survives the next `rstrip` unchanged, except that an empty line leaves `//` |
| CodeEditor.CommentRoundTrip | code_editor.py:244-255 | commenting one trimmed line, then uncommenting it, gives the line back |
| CodeEditor.ToggleTwiceRestores | code_editor.py:240-258 | toggling a block of trimmed lines that is not all commented twice restores it |
| CodeEditor.IndentedCommentStaysCommented | code_editor.py:253 | as written, uncommenting `"  // x"` gives `"// x"`, which is still a comment |
| CodeEditor.ToggleBlockFixed | code_editor.py:250-255 | the corrected toggle keeps the number of lines |
| CodeEditor.LStripSpacePrefix | code_editor.py:246 | `lstrip` skips any run of leading whitespace |
| CodeEditor.UncommentFixedIgnoresIndent | code_editor.py:246-253 | the corrected uncomment removes an indented `// ` marker and gives back the text |
| CodeEditor.ToggleFixedTwiceRestores | code_editor.py:240-258 | with the corrected uncomment, toggling twice also restores the block |
| CodeEditor.CollectLines | code_editor.py:240-247 | the first loop collects the rstripped lines of the selection and sets the flag exactly when all are commented |
| CodeEditor.ToggleLines | code_editor.py:250-255 | the second loop applies the per-line transform to every line, in order |
| CodeEditor.Editor.CommentLines | code_editor.py:225-258 | the selected lines are replaced by their toggled block and the rest of the document is kept; the editor becomes modified |
| FindDialog.Searched | dialogs/find_dialog.py:345-347 | the searched text keeps the original's length, so its offsets index the original |
| FindDialog.FindAdvances | dialogs/find_dialog.py:351-353 | each `find(search_text, start)` is either -1 with nothing left, or the first remaining occurrence, after which the search resumes at the next index |
| FindDialog.FindAllCurrent | dialogs/find_dialog.py:340-366 | normal-mode Find All collects exactly `FindAll` |
| FindDialog.CollectMatches | dialogs/find_dialog.py:349-366 | the `while True` loop collects the spans of all occurrences, overlapping ones included, filtered by the whole-word test |
| FindDialog.CollectStep | dialogs/find_dialog.py:351-366 | one loop iteration keeps the loop invariant |
| FindDialog.SpansStep | dialogs/find_dialog.py:355-364 | one kept or dropped occurrence moves from the remaining list to the collected list |
| FindDialog.SpansCons | dialogs/find_dialog.py:355-364 | the first occurrence's span comes first |
| FindDialog.SpansMembers | dialogs/find_dialog.py:355-364 | a span is reported exactly when it starts at a listed occurrence that passes the whole-word test |
| FindDialog.SpansIncreasing | dialogs/find_dialog.py:349-366 | increasing occurrences give spans with strictly increasing starts |
| FindDialog.FindAllExact | dialogs/find_dialog.py:340-366 | `(i, j)` is reported exactly when the searched text matches at `i`, `j` is `i + len(text)` and, with Whole Word, the neighbours are not alphanumeric; starts strictly increase |
| FindDialog.LowerSlice | dialogs/find_dialog.py:345-347 | lower-casing commutes with slicing |
| FindDialog.CaseInsensitiveMatch | dialogs/find_dialog.py:345-364 | without Match Case, a reported index points at a slice of the original text equal to the search text up to case |
| FindDialog.CountSingleChar | dialogs/find_dialog.py:376 | `count('\n')` counts newline characters one by one |
| FindDialog.OccurrencesAppend | dialogs/find_dialog.py:376 | one more character adds one to the newline count exactly when it is a newline |
| FindDialog.PositionIsWalk | dialogs/find_dialog.py:376-381 | the line as the number of newlines and the column from the last newline give the position reached by walking the text |
| FindDialog.OffsetToPositionIsWalk | dialogs/find_dialog.py:376-384 | the (line, column) of a match offset is the position of that offset in the text |
| FindDialog.SpansAll | dialogs/find_dialog.py:363-364 | without Whole Word every occurrence is reported |
| FindDialog.CountAtMostFindAll | dialogs/find_dialog.py:294-298 | Count without Whole Word is never larger than what Find All collects, and is 0 exactly when Find All finds nothing |
| FindDialog.ReplaceGuard | dialogs/find_dialog.py:513-521 | the selection is replaced exactly when there is one equal to the search text (up to case without Match Case); otherwise the text is untouched and only the next match is sought |
| FindDialog.ExactSelectionMatchesFolded | dialogs/find_dialog.py:516-517 | a selection equal to the text with Match Case also passes without it |
| Terminal.QueuePop | Terminal.py:149 | taking the front of a queue without adjacent repeats keeps that property, with the front now running |
| Terminal.QueuePush | Terminal.py:142 | appending a command that repeats neither the last queued nor the running one keeps the queue free of adjacent repeats |
| Terminal.Dispatched | Terminal.py:145-150 | dispatch changes neither history, cursor, input nor callbacks |
| Terminal.Enqueued | Terminal.py:126-143 | `run_command` changes neither history, cursor, input nor callbacks |
| Terminal.SpecificCommand | Terminal.py:168-199 | `clear`, `help` and other commands change neither history, cursor, input nor callbacks |
| Terminal.InitialValid | Terminal.py:47-52 | the initial terminal satisfies the invariant and has nothing pending |
| Terminal.HistoryUpValid | Terminal.py:88-92 | Up moves the cursor one entry older and shows it while there is one, else does nothing; the invariant holds |
| Terminal.HistoryDownValid | Terminal.py:93-100 | Down from entry 0 clears the input at cursor -1; from a later entry shows the newer one; at -1 it does nothing; the invariant holds |
| Terminal.DownUndoesUp | Terminal.py:88-100 | Down after a successful Up returns to the same cursor and input |
| Terminal.UpUndoesDown | Terminal.py:88-100 | Up after Down from a history entry returns to it |
| Terminal.DispatchedValid | Terminal.py:145-150 | dispatch keeps the invariant and the pending sequence (running first, then the queue) |
| Terminal.DispatchStartsFront | Terminal.py:146-152 | dispatch does nothing while a command runs or the queue is empty; otherwise the queue's front starts and is logged |
| Terminal.DuplicateDropped | Terminal.py:128-139 | a command repeating the running or last queued one changes no queue state and adds one debug log line |
| Terminal.EnqueuedFifo | Terminal.py:141-143 | a new command joins the back of the pending sequence, starting at once when idle; the invariant holds |
| Terminal.EnqueuedValid | Terminal.py:126-143 | `run_command` keeps the invariant in every case |
| Terminal.CompletedFifo | Terminal.py:156-161 | completion removes the running command from the front of the pending sequence, records its callback and starts the next queued one, if any |
| Terminal.BlankLineIgnored | Terminal.py:202-204 | an input that is blank after strip changes nothing |
| Terminal.SubmittedHistory | Terminal.py:202-209 | the stripped command becomes the front of history unless it already is; the cursor resets to -1 and the input clears |
| Terminal.SubmittedRuns | Terminal.py:198-212 | an ordinary command is run as its tokens joined with spaces, after the history update |
| Terminal.SubmittedValid | Terminal.py:201-212 | submitting keeps the invariant |
| Terminal.Terminal.constructor | Terminal.py:47-52 | a new terminal has empty history, cursor -1, an empty queue and nothing running |
| Terminal.Terminal.EventFilter | Terminal.py:86-101 | Up and Down move through history as `HistoryUp`/`HistoryDown` and are consumed; other keys change nothing |
| Terminal.Terminal.AddLog | Terminal.py:106-124 | one log entry is appended |
| Terminal.Terminal.ProcessNextCommand | Terminal.py:145-166 | the new state is `Dispatched` of the old |
| Terminal.Terminal.RunCommand | Terminal.py:126-143 | the new state is `Enqueued` of the old |
| Terminal.Terminal.OnCommandDone | Terminal.py:156-161 | the new state is `Completed` of the old with the worker's output |
| Terminal.Terminal.ExecuteSpecificCommand | Terminal.py:168-199 | the new state is `SpecificCommand` of the old |
| Terminal.Terminal.ExecuteInputCommand | Terminal.py:201-220 | the new state is `Submitted` of the old |
| MainWindow.TabWith | main_window.py:543-547 | the tab search returns the first tab showing the path, or None when no tab does |
| MainWindow.CurrentEditor | main_window.py:736-741 | the current editor is the tab at the current index when that index is in range |
| MainWindow.RemoveAt | main_window.py:651 | `removeTab` keeps the tabs before the index and shifts the rest down by one |
| MainWindow.CurrentAfterRemove | main_window.py:651 | after `removeTab` the current index is still a valid tab index |
| MainWindow.InitialValid | main_window.py:92-97 | the start-up window (one Untitled tab, empty stack) satisfies the window invariant |
| MainWindow.OpenedValid | main_window.py:531-587 | `open_file` keeps the invariant (no two tabs with one path), never removes a tab and leaves the stack alone |
| MainWindow.AlreadyOpen | main_window.py:543-547 | opening a path some tab shows only makes that tab current |
| MainWindow.OpenNew | main_window.py:549-587 | a path no tab shows is read into a new last, current, unmodified tab at the cursor; a read error changes nothing |
| MainWindow.CloseTabValid | main_window.py:643-655 | closing a tab keeps the window invariant |
| MainWindow.ClosedValid | main_window.py:622-655 | `close_file` keeps the window invariant |
| MainWindow.PromptKeepsTab | main_window.py:636-640 | a modified tab answered with Cancel, or (as written) Save, stays and nothing changes |
| MainWindow.ClosePushes | main_window.py:642-655 | a closed tab is pushed as (path, text, cursor) exactly when it has a path and is removed; the last tab is replaced by Untitled |
| MainWindow.ReopenEmpty | main_window.py:900 | reopening with an empty stack does nothing |
| MainWindow.ReopenPops | main_window.py:901 | reopening pops the most recently closed file (LIFO) |
| MainWindow.CloseThenReopen | main_window.py:622-907 | closing a saved tab and reopening it, while its file is readable, brings it back as the current last tab with its text, unmodified, with the caret at the start; other tabs and the stack are as before |
| MainWindow.ReopenOverwritesOtherTab | main_window.py:898-907 | as written, a reopen whose file cannot be read overwrites the current tab, another modified file, marks it saved and moves its caret to the start |
| MainWindow.ReopenedFixedKeepsOtherTabs | main_window.py:898-907 | the corrected reopen never changes a tab showing another file, and changes no tab when the file cannot be read |
| MainWindow.SaveReplyKeepsTab | main_window.py:636-638 | as written, Save on a modified tab keeps it open and pushes nothing |
| MainWindow.ClosedFixedSaves | main_window.py:636-655 | the corrected close, after a successful save, closes the tab like a saved one and pushes it under its saved path; a failed save keeps it |
| MainWindow.FunctionListPattern | main_window.py:1099-1107 | a pattern locator jumps exactly when some stripped line contains the pattern, to the first such line; the column is `find(symbol)` unclamped, possibly -1 |
| MainWindow.FunctionListNumeric | main_window.py:1110-1117 | an all-digit locator jumps to that line; the column is `find(symbol)` there, or 0 past the end of the file |
| MainWindow.FunctionListFailures | main_window.py:1108-1123 | a read error, or a locator of neither form, gives no jump |
| MainWindow.FunctionListAgainstTagCache | main_window.py:1099-1117 | where the tag cache inserts a record, the function list jumps to the same line with the column before clamping; where the cache skips, it makes no jump |
| MainWindow.UnclampedColumn | main_window.py:1106 | the two disagree: a matching line lacking the symbol gives column -1 here and 0 in the tag cache |
| MainWindow.FunctionListJump | main_window.py:1095-1123 | the loops compute `FunctionListTarget` |
| MainWindow.FindTab | main_window.py:543-547 | the loop over tabs finds `TabWith` |
| MainWindow.MainWindow.constructor | main_window.py:92-97 | the window starts as one Untitled tab with an empty stack |
| MainWindow.MainWindow.GetCurrentEditor | main_window.py:736-741 | returns `CurrentEditor` of the window |
| MainWindow.MainWindow.OpenFile | main_window.py:531-587 | the new window is `Opened` of the old |
| MainWindow.MainWindow.CloseFile | main_window.py:622-655 | the new window is `Closed` of the old |
| MainWindow.MainWindow.ReopenLastClosedFile | main_window.py:898-907 | the new window is `Reopened` of the old: the top entry popped, its file opened, its text put into the current editor, which is marked saved with its caret at the start |
| MainWindow.MainWindow.OnItemDoubleClicked | main_window.py:1087-1123 | no item data or no current editor gives no jump; otherwise the jump is `FunctionListTarget` of the item's path and locator |
| Compiler.RemoveFirst | Compiler.py:198 | `list.remove` drops one copy of a present path and keeps the list when it is absent |
| Compiler.AddFileRule | Compiler.py:189-193 | the path is appended exactly when it is absent and its lower-cased suffix is `.c`; otherwise the list is unchanged |
| Compiler.SuffixExamples | Compiler.py:189 | `main.C` counts as a C source; `main.h` and the dot-file `.c` do not |
| Compiler.RemoveFirstKeepsOrder | Compiler.py:198 | removal takes out the first copy and keeps the order of the rest |
| Compiler.RemovedAbsent | Compiler.py:195-201 | in a list without duplicates, a removed path is gone |
| Compiler.MultiplicityOne | Compiler.py:189 | in a list without duplicates each path occurs once |
| Compiler.OpKeepsNoDuplicates | Compiler.py:187-201 | one add or remove keeps the list without duplicates |
| Compiler.OpKeepsOrigins | Compiler.py:189-198 | an add brings in only a `.c` path and a remove brings in nothing |
| Compiler.TwoOccurrences | Compiler.py:189 | two equal positions give a multiplicity of at least two |
| Compiler.NoDuplicatesAfterAnyOps | Compiler.py:152-201 | any sequence of adds and removes from a duplicate-free list leaves it duplicate-free and made of C sources or original paths |
| Compiler.AddThenRemove | Compiler.py:187-201 | adding a new C source and removing it restores the list |
| Compiler.BuildCommandShape | Compiler.py:203-211 | no sources give None; otherwise the command is compiler, flags, sources, `-o` and the output path, in that order |
| Compiler.OutputInBuildDir | Compiler.py:207-209 | the output path is `<project dir>/build/<output file>` |
| Compiler.FlagsRoundTrip | Compiler.py:253-279 | showing the flags joined by spaces and saving that text gives the same flags |
| Compiler.ProjectManager.constructor | Compiler.py:142-148 | no project, no sources, `output.exe`, `["-Wall"]` |
| Compiler.ProjectManager.LoadDefaultConfig | Compiler.py:150-154 | resets sources, output file and flags to the defaults |
| Compiler.ProjectManager.AddFile | Compiler.py:187-193 | returns True exactly when the path is absent and a `.c` source, appending it then; otherwise the list is unchanged |
| Compiler.ProjectManager.RemoveFile | Compiler.py:195-201 | returns True exactly when the path was present, removing it then; otherwise the list is unchanged |
| Compiler.ProjectManager.GetBuildCommand | Compiler.py:203-211 | the command is `BuildArgs` of the manager's state |
| Compiler.ProjectManager.SaveConfig | Compiler.py:277-279 | the output file is the text and the flags are its whitespace split |
| GoToLine.Go | dialogs/goto_line_dialog.py:34-51 | the outcome is Invalid exactly for non-digit text; digits with no editor give NoEditor; a jump to 0-based line `n - 1` happens exactly when there is an editor and `1 <= n <=` its line count; any other number reports the editor's line count as out of range |
| GoToLine.After | dialogs/goto_line_dialog.py:50-51 | a jump puts the cursor at column 0 of the line and closes the dialog; any other outcome leaves both alone |
| GoToLine.ZeroRejected | dialogs/goto_line_dialog.py:37-48 | `"0"` passes the digit test but is out of range |
| GoToLine.LastLineBoundary | dialogs/goto_line_dialog.py:41-51 | the last line is reachable and lands at its start |
| GoToLine.JumpIffClosed | dialogs/goto_line_dialog.py:44-51 | the dialog closes exactly when the cursor moves, and then it is at column 0 of an existing line |

## Left out

- **Files and encodings.**
  - Files are line lists, without line terminators; reading a whole file either succeeds or fails.
  - `chardet` detection, UTF-8 decode errors part-way through a file, and the writes of `save_file`, `save_project` and the ctags-file removal in `close_file` are not modelled.
  - Paths are compared as strings, with no normalisation.
  - Paths.Name, Paths.Suffix, Paths.Parent, Paths.JoinPath and Compiler.OutputPath model POSIX `pathlib` only, with `/` as the one separator. The program targets Windows (it starts `.\ctags\ctags.exe` at `ctags_handler.py:24` and names its default output `output.exe`), where `\` also separates and drive letters exist; so Compiler.OutputPath, Compiler.BuildCommandShape and Compiler.OutputInBuildDir state the `<dir>/build/<output>` form of POSIX paths only.
- **ctags.** The tagger process (`ctags_handler.py`) is the boolean `taggerOk` plus the file system `fsAfter` it leaves. `generate_ctags` in `open_file` and the tag-file removal in `close_file` are not modelled.
- **Terminal worker.**
  - `TerminalWorker` and `subprocess` are out. What a finished command printed is the `output` argument of `OnCommandDone`.
  - A callback is only recorded, not run.
  - The `workers` list is left out. The command compared against at `Terminal.py:129` is the running job: a finished worker is assumed to have left the list.
- **Terminal commands.**
  - `shlex.split` is out: the tokens are a parameter, and None stands for `shlex` raising.
  - `cd` (`Terminal.py:178-196`) is left as a no-op, because it depends on `os.path` and `os.chdir`.
  - The log keeps (kind, message) pairs without the prompt and colours.
  - An empty token list reaches `" ".join([None])`, which raises; the model makes it a no-op.
- **Qt and QScintilla widgets.** Menus, styles, highlighting, indicators, the status bar and editor_manager.py are left out. The message box is a return value and the file dialog's answer is a parameter.
- **Regular expressions.** The regex modes and the whole-word count in `dialogs/find_dialog.py` are not modelled. Line 370 tests `isinstance(match, re.Match)` with `re` bound only in the regex branch, so in normal mode any match raises an UnboundLocalError there. That exception path is not modelled; the model gives the match list and each match's position.
- **Count with Whole Word** uses the regex path and is not modelled (Count's local `import re` has the same scoping problem).
- **Missing imports.** `dialogs/find_dialog.py` and `dialogs/goto_line_dialog.py` never import `QMessageBox`, so each warning raises a NameError. That changes nothing the model keeps, so a warning is modelled as an outcome.
- **Uncaught exceptions.** An exception that escapes a slot is modelled as "nothing further happens". PyQt6's reaction to it (it may abort the program) is not modelled.
- **Python text semantics.** `lower`, `isdigit`, `isalnum` and `strip` are ASCII here. `int()`'s underscores and non-ASCII digits are not modelled.
- **Function list.**
  - MainWindow.MainWindow.OnItemDoubleClicked: in the source this handler is defined on the main window but reaches the editor through `self.parent.get_current_editor()`, which fails on a main window, and nothing visible connects it. The model uses the current editor directly and keeps the locator logic.
  - `open_file_at_line` is the returned target.
- **Editor geometry.** Scintilla's clamping of a cursor beyond a line, and the scroll bar, are left out.
- **Open and close details.**
  - Exceptions raised after `addTab` in `open_file` (`update_function_list`, ctags) are not modelled.
  - `close_file`'s `CtagsHandler` call is not modelled.
  - The tab colours set by `reopen_last_closed_file` are not modelled.
  - MainWindow.Reopened puts the caret of the editor it overwrites at the start because QScintilla's `setText` does so; that widget is not part of this model, so the caret reset is stated, not derived.
- **Staleness.** `last_modified` exists but is never read; the rebuild trigger is only `isModified()` or an empty cache, and that is what the model uses.
- **Error handling in the tag cache.** Any exception in a record (a missing source file, a bad `line:` value) ends the whole update; it does not fall back to column 0 for that record. The model follows the code.
- **Compiler.** `compile`, `compile_project` and the gcc process are out, as are `save_project`'s JSON, the `mkdir` side effect in `get_build_command`, and `open_project`/`create_project`. `get_build_command` with sources but no project file raises; the model reports `NoProject`.
- **Compiler.OutputInBuildDir** is stated only for a project file inside a directory other than `.`, whose path does not end in `/`.

## Findings

| source | as written | input that shows it | evidently intended | confidence | as-written member | corrected member |
|---|---|---|---|---|---|---|
| code_editor.py:253 | uncommenting strips `/` before leading whitespace, so an indented comment keeps its marker | the block `["  // x"]`: all commented, toggled to `["// x"]`, still a comment | the indentation is skipped first, so toggling twice restores the block | not executed | CodeEditor.IndentedCommentStaysCommented | CodeEditor.ToggleBlockFixed |
| main_window.py:898-907 | after `open_file`, the popped text goes into whatever editor is current, even when the popped file could not be opened | current tab `b.c`, modified; stack top `a.c`, unreadable: `b.c` gets `a.c`'s old text and is marked saved | restore the text only into the tab that shows the popped file | not executed | MainWindow.ReopenOverwritesOtherTab | MainWindow.ReopenedFixedKeepsOtherTabs |
| main_window.py:636-638 | Save calls `self.save_file(editor)`, but `save_file` takes no argument: the call raises and the tab never closes | a modified tab `a.c`, reply Save: the window is unchanged | save this editor (`save_file_for_editor`) and close it when the save succeeds | not executed | MainWindow.SaveReplyKeepsTab | MainWindow.ClosedFixedSaves |

The class methods (`MainWindow.MainWindow.CloseFile`, `MainWindow.MainWindow.ReopenLastClosedFile`, `CodeEditor.Editor.CommentLines`) model the code as written; the corrected definitions sit beside them with their properties proved.
