/** The editor widget of code_editor.py: its tag cache, go-to-definition and
    the line-comment toggle. The editor's document is a sequence of lines
    without terminators; the file system and the ctags run are parameters. */
module CodeEditor {
  import opened PyString
  import opened Paths
  import opened Locators
  import opened TagCache

  // ---------------------------------------------------------------------
  // Go-to-definition

  /** What `gotoDefinition` ends with: a warning, or a jump. */
  datatype GotoOutcome = NoFilePath | TaggerFailed | NotFound(word: string) | Jump(loc: Location)

  /** The outcome, the cache afterwards and whether ctags was started. */
  datatype GotoResult = GotoResult(outcome: GotoOutcome, cache: Cache, ranTagger: bool)

  /** `f"{file_path}.tags"`. */
  function FileTag(path: string): string {
    path + ".tags"
  }

  /** `str(Path(project_dir) / "project.tags")`. */
  function ProjectTag(dir: string): string {
    JoinPath(dir, "project.tags")
  }

  /** The tag files read on a rebuild: the editor's own, then the project's
      when there is a project directory and its tag file exists. */
  function TagFileList(fs: FileSystem, path: string, projectDir: Option<string>): (r: seq<string>)
    ensures 1 <= |r| <= 2 && r[0] == FileTag(path)
    ensures |r| == 2 <==> projectDir.Some? && projectDir.value != "" && ProjectTag(projectDir.value) in fs
    ensures |r| == 2 ==> r[1] == ProjectTag(projectDir.value)
  {
    if projectDir.Some? && projectDir.value != "" && ProjectTag(projectDir.value) in fs
    then [FileTag(path), ProjectTag(projectDir.value)]
    else [FileTag(path)]
  }

  /** `self.tags_cache.get(word)`, then jump or warn. */
  function Lookup(cache: Cache, word: string): GotoOutcome {
    if word in cache then Jump(cache[word]) else NotFound(word)
  }

  /** `gotoDefinition` on an editor whose path, modified flag and cache are
      given. `taggerOk` is what `generate_ctags()` returns and `fsAfter` the
      file system after it ran. */
  function Resolve(filePath: Option<string>, modified: bool, cache: Cache, word: string, fs: FileSystem,
                   projectDir: Option<string>, taggerOk: bool, fsAfter: FileSystem): GotoResult
  {
    if filePath.None? || filePath.value == "" then GotoResult(NoFilePath, cache, false)
    else if !modified && cache != map[] then GotoResult(Lookup(cache, word), cache, false)
    else
      var path := filePath.value;
      var ran := FileTag(path) !in fs;
      if ran && !taggerOk then GotoResult(TaggerFailed, cache, true)
      else
        var fs' := if ran then fsAfter else fs;
        var c := Rebuild(fs', TagFileList(fs', path, projectDir));
        GotoResult(Lookup(c, word), c, ran)
  }

  /** Without a file path there is a warning and nothing else. */
  lemma GotoWithoutPath(filePath: Option<string>, modified: bool, cache: Cache, word: string, fs: FileSystem,
                        projectDir: Option<string>, taggerOk: bool, fsAfter: FileSystem)
    ensures var r := Resolve(filePath, modified, cache, word, fs, projectDir, taggerOk, fsAfter);
            r.outcome == NoFilePath <==> filePath.None? || filePath.value == ""
    ensures var r := Resolve(filePath, modified, cache, word, fs, projectDir, taggerOk, fsAfter);
            r.outcome == NoFilePath ==> r.cache == cache && !r.ranTagger
  {
  }

  /** An unmodified editor with a non-empty cache looks the word up in the
      cache it has: no rebuild, no ctags. */
  lemma GotoUsesExistingCache(path: string, cache: Cache, word: string, fs: FileSystem,
                              projectDir: Option<string>, taggerOk: bool, fsAfter: FileSystem)
    requires path != "" && cache != map[]
    ensures var r := Resolve(Some(path), false, cache, word, fs, projectDir, taggerOk, fsAfter);
            && r.cache == cache && !r.ranTagger
            && (word in cache ==> r.outcome == Jump(cache[word]))
            && (word !in cache ==> r.outcome == NotFound(word))
  {
  }

  /** ctags is started exactly when a rebuild is due and the editor's own tag
      file is missing; a falsy result stops before any lookup and leaves the
      cache alone. */
  lemma GotoTaggerRule(filePath: Option<string>, modified: bool, cache: Cache, word: string, fs: FileSystem,
                       projectDir: Option<string>, taggerOk: bool, fsAfter: FileSystem)
    ensures var r := Resolve(filePath, modified, cache, word, fs, projectDir, taggerOk, fsAfter);
            r.ranTagger <==> (filePath.Some? && filePath.value != "" && (modified || cache == map[])
                              && FileTag(filePath.value) !in fs)
    ensures var r := Resolve(filePath, modified, cache, word, fs, projectDir, taggerOk, fsAfter);
            r.outcome == TaggerFailed <==> r.ranTagger && !taggerOk
    ensures var r := Resolve(filePath, modified, cache, word, fs, projectDir, taggerOk, fsAfter);
            r.outcome == TaggerFailed ==> r.cache == cache
  {
  }

  /** Whenever a lookup happens, the jump target is the cache entry for the
      word and a miss is reported as not found. */
  lemma GotoLookupAgreesWithCache(filePath: Option<string>, modified: bool, cache: Cache, word: string, fs: FileSystem,
                                  projectDir: Option<string>, taggerOk: bool, fsAfter: FileSystem)
    ensures var r := Resolve(filePath, modified, cache, word, fs, projectDir, taggerOk, fsAfter);
            && (r.outcome.Jump? || r.outcome.NotFound? ==> (r.outcome.Jump? <==> word in r.cache))
            && (r.outcome.Jump? ==> r.outcome.loc == r.cache[word])
            && (r.outcome.NotFound? ==> r.outcome.word == word)
  {
  }

  /** A modified editor always rebuilds from scratch, from its own tag file
      and then the project's. */
  lemma GotoRebuildsWhenModified(path: string, cache: Cache, word: string, fs: FileSystem,
                                 projectDir: Option<string>, taggerOk: bool, fsAfter: FileSystem)
    requires path != "" && FileTag(path) in fs
    ensures var r := Resolve(Some(path), true, cache, word, fs, projectDir, taggerOk, fsAfter);
            r.cache == Rebuild(fs, TagFileList(fs, path, projectDir)) && !r.ranTagger
  {
  }

  /** The project's tag file is merged after the file's own, so its record
      of a symbol wins. */
  lemma GotoPrefersProjectRecord(path: string, dir: string, cache: Cache, word: string, fs: FileSystem,
                                 taggerOk: bool, fsAfter: FileSystem)
    requires path != "" && dir != ""
    requires FileTag(path) in fs && fs[FileTag(path)].Readable?
    requires ProjectTag(dir) in fs && fs[ProjectTag(dir)].Readable?
    requires !ProcessLines(fs, fs[FileTag(path)].lines, map[]).aborted
    requires !ProcessLines(fs, fs[ProjectTag(dir)].lines, ProcessLines(fs, fs[FileTag(path)].lines, map[]).cache).aborted
    requires LastInsert(fs, fs[ProjectTag(dir)].lines, word).Some?
    ensures Resolve(Some(path), true, cache, word, fs, Some(dir), taggerOk, fsAfter).outcome
              == Jump(LastInsert(fs, fs[ProjectTag(dir)].lines, word).value)
  {
    LaterFileWins(fs, FileTag(path), ProjectTag(dir), word);
  }

  // ---------------------------------------------------------------------
  // Reconciling one record, with the loops of `update_tags_cache`

  /** The body of `for line in f` in `update_tags_cache`. */
  method ReconcileLine(fs: FileSystem, line: string) returns (step: Step)
    ensures step == Reconcile(fs, line)
  {
    if StartsWith(line, "!") {
      return Skip;
    }
    var parts := Fields(line);
    if |parts| < 3 {
      return Skip;
    }
    var kind := if |parts| > 3 then parts[3] else "unknown";
    if kind == "d" {
      step := ReconcileMacro(fs, parts);
    } else if IsPatternLocator(parts[2]) {
      step := ScanPattern(fs, parts[0], parts[1], parts[2], Skip);
    } else if IsDigits(parts[2]) {
      step := ScanLine(fs, parts[0], parts[1], DecimalValue(parts[2]));
    } else {
      step := Skip;
    }
  }

  /** The `tag_type == 'd'` branch: `for field in parts` looks for the
      `line:` field, then the line or the pattern is looked up. */
  method ReconcileMacro(fs: FileSystem, parts: seq<string>) returns (step: Step)
    requires |parts| >= 3
    ensures step == MacroRecord(fs, parts)
  {
    var symbol, path, info := parts[0], parts[1], parts[2];
    var lineNumber, failed := FindLineField(parts);
    if failed {
      return Abort;
    }
    if lineNumber.Some? && lineNumber.value != 0 {
      step := ScanLine(fs, symbol, path, lineNumber.value);
    } else if IsPatternLocator(info) {
      var fallback := if lineNumber.Some? then Insert(symbol, Location(path, 0, 0)) else Skip;
      step := ScanPattern(fs, symbol, path, info, fallback);
    } else if lineNumber.Some? {
      step := Insert(symbol, Location(path, 0, 0));
    } else {
      step := Skip;
    }
  }

  /** `for field in parts: if field.startswith("line:"): line_number =
      int(field.split(":")[1]); break`. `failed` is the `int()` error. */
  method FindLineField(parts: seq<string>) returns (lineNumber: Option<int>, failed: bool)
    ensures failed <==> LineFieldText(parts).Some? && ParseInt(LineFieldText(parts).value).None?
    ensures !failed ==> lineNumber == if LineFieldText(parts).None? then None else ParseInt(LineFieldText(parts).value)
  {
    lineNumber, failed := None, false;
    var i := 0;
    while i < |parts|
      invariant 0 <= i <= |parts|
      invariant forall j :: 0 <= j < i ==> !StartsWith(parts[j], "line:")
    {
      if StartsWith(parts[i], "line:") {
        LineFieldHasTwoPieces(parts[i]);
        lineNumber := ParseInt(Split(parts[i], ':')[1]);
        failed := lineNumber.None?;
        return;
      }
      i := i + 1;
    }
  }

  /** Opening the source file and scanning it for the pattern; `fallback` is
      what the record gives when no line matches. */
  method ScanPattern(fs: FileSystem, symbol: string, path: string, info: string, fallback: Step) returns (step: Step)
    requires IsPatternLocator(info)
    ensures step == ByPattern(fs, symbol, path, info, fallback)
  {
    if !CanRead(fs, path) {
      return Abort;
    }
    var found, column := ScanForPattern(fs[path].lines, PatternOf(info), symbol);
    if found.Some? {
      if column == -1 {
        column := 0;
      }
      step := Insert(symbol, Location(path, found.value, column));
    } else {
      step := fallback;
    }
  }

  /** Opening the source file and taking the symbol's column on line `n`. */
  method ScanLine(fs: FileSystem, symbol: string, path: string, n: int) returns (step: Step)
    ensures step == AtLine(fs, symbol, path, n)
  {
    if !CanRead(fs, path) {
      return Abort;
    }
    var column := ScanForLine(fs[path].lines, n, symbol);
    if column == -1 {
      column := 0;
    }
    step := Insert(symbol, Location(path, n, column));
  }

  // ---------------------------------------------------------------------
  // The comment toggle

  /** `line.lstrip().startswith("//")`. */
  predicate IsCommented(line: string) {
    StartsWith(LStrip(line), "//")
  }

  /** `"// " + line`. */
  function CommentOut(line: string): string {
    "// " + line
  }

  /** `line.lstrip("//").lstrip()`. */
  function Uncomment(line: string): string {
    LStrip(LStripChar(line, '/'))
  }

  function RStripAll(lines: seq<string>): (r: seq<string>)
    ensures |r| == |lines| && forall i :: 0 <= i < |r| ==> r[i] == RStrip(lines[i])
  {
    seq(|lines|, i requires 0 <= i < |lines| => RStrip(lines[i]))
  }

  predicate AllCommented(lines: seq<string>) {
    forall i :: 0 <= i < |lines| ==> IsCommented(lines[i])
  }

  /** The lines `comment_lines` puts in place of a block: after `rstrip`, all
      uncommented when every one is commented, otherwise all commented. */
  function ToggleBlock(block: seq<string>): (r: seq<string>)
    ensures |r| == |block|
  {
    var lines := RStripAll(block);
    seq(|lines|, i requires 0 <= i < |lines| => ToggleLine(AllCommented(lines), lines[i]))
  }

  /** One line of the toggle, once `all_commented` is known. */
  function ToggleLine(allCommented: bool, line: string): string {
    if allCommented then Uncomment(line) else CommentOut(line)
  }

  lemma AllCommentedAppend(lines: seq<string>, line: string)
    ensures AllCommented(lines + [line]) <==> AllCommented(lines) && IsCommented(line)
  {
    assert (lines + [line])[|lines|] == line;
    assert forall j :: 0 <= j < |lines| ==> (lines + [line])[j] == lines[j];
  }

  /** A line with no whitespace at either end. */
  predicate Trimmed(line: string) {
    line == [] || (!IsSpace(line[0]) && !IsSpace(line[|line| - 1]))
  }

  /** After the toggle the block is either entirely commented or came out of
      an entirely commented block. */
  lemma ToggleCommentsWhenSomeLineIsNot(block: seq<string>)
    requires !AllCommented(RStripAll(block))
    ensures AllCommented(ToggleBlock(block))
    ensures forall i :: 0 <= i < |block| ==> ToggleBlock(block)[i] == CommentOut(RStrip(block[i]))
  {
    forall i | 0 <= i < |block| ensures IsCommented(ToggleBlock(block)[i]) {
      CommentOutIsCommented(RStrip(block[i]));
    }
  }

  lemma CommentOutIsCommented(line: string)
    ensures IsCommented(CommentOut(line))
  {
    var l := CommentOut(line);
    assert l[0] == '/' && l[1] == '/';
    LStripNoLeadingSpace(l);
    assert l[..2] == "//";
    assert StartsWith(LStrip(l), "//");
  }

  lemma ToggleUncommentsWhenAllAre(block: seq<string>)
    requires AllCommented(RStripAll(block))
    ensures forall i :: 0 <= i < |block| ==> ToggleBlock(block)[i] == Uncomment(RStrip(block[i]))
  {
  }

  /** `lstrip('/')` removes exactly the two slashes of a comment marker
      followed by something else. */
  lemma LStripMarker(t: string)
    requires t == [] || t[0] != '/'
    ensures LStripChar("//" + t, '/') == t
  {
    assert ("//" + t)[1..] == "/" + t;
    assert ("/" + t)[1..] == t;
    assert LStripChar("//" + t, '/') == LStripChar("/" + t, '/');
    assert LStripChar("/" + t, '/') == LStripChar(t, '/');
  }

  lemma RStripCommentOut(line: string)
    requires Trimmed(line)
    ensures RStrip(CommentOut(line)) == if line == [] then "//" else CommentOut(line)
  {
    if line == [] {
      assert RStrip("// ") == RStrip("//");
    }
  }

  /** Commenting then uncommenting a trimmed line gives it back. */
  lemma CommentRoundTrip(line: string)
    requires Trimmed(line)
    ensures IsCommented(RStrip(CommentOut(line)))
    ensures Uncomment(RStrip(CommentOut(line))) == line
  {
    var c := RStrip(CommentOut(line));
    RStripCommentOut(line);
    assert c == "//" + (if line == [] then "" else " " + line);
    LStripNoLeadingSpace(c);
    assert c[..2] == "//";
    if line == [] {
      LStripMarker("");
    } else {
      LStripMarker(" " + line);
      LStripLeadingSpace(' ', line);
      LStripNoLeadingSpace(line);
    }
  }

  /** Toggling twice gives back a block of trimmed lines that were not all
      commented to begin with. */
  lemma ToggleTwiceRestores(block: seq<string>)
    requires forall i :: 0 <= i < |block| ==> Trimmed(block[i])
    requires !AllCommented(block)
    ensures ToggleBlock(ToggleBlock(block)) == block
  {
    forall i | 0 <= i < |block| ensures RStripAll(block)[i] == block[i] {
      assert RStrip(block[i]) == block[i];
    }
    assert RStripAll(block) == block;
    var once := ToggleBlock(block);
    ToggleCommentsWhenSomeLineIsNot(block);
    forall i | 0 <= i < |once| ensures IsCommented(RStripAll(once)[i]) && Uncomment(RStrip(once[i])) == block[i] {
      CommentRoundTrip(block[i]);
    }
    ToggleUncommentsWhenAllAre(once);
  }

  // ---------------------------------------------------------------------
  // Counterexample and corrected toggle (see Findings in README.md)

  /** As written, uncommenting strips the slashes before the indentation, so
      an indented comment only loses its indentation and stays commented. */
  lemma IndentedCommentStaysCommented()
    ensures AllCommented(RStripAll(["  // x"]))
    ensures ToggleBlock(["  // x"]) == ["// x"]
    ensures IsCommented("// x")
  {
    var l := "  // x";
    assert RStrip(l) == l;
    assert LStrip(l) == "// x" by {
      assert SkipSpace(l, 2) == 2;
      assert SkipSpace(l, 0) == 2;
    }
    LStripNoLeadingSpace("// x");
    assert ("// x")[..2] == "//";
    assert RStripAll([l]) == [l];
    assert LStripChar(l, '/') == l;
    assert ToggleBlock([l])[0] == Uncomment(l);
  }

  /** The evidently intended removal: indentation, then the slashes, then the
      space after them. */
  function UncommentFixed(line: string): string {
    LStrip(LStripChar(LStrip(line), '/'))
  }

  function ToggleBlockFixed(block: seq<string>): (r: seq<string>)
    ensures |r| == |block|
  {
    var lines := RStripAll(block);
    if AllCommented(lines) then seq(|lines|, i requires 0 <= i < |lines| => UncommentFixed(lines[i]))
    else seq(|lines|, i requires 0 <= i < |lines| => CommentOut(lines[i]))
  }

  lemma {:induction false} LStripSpacePrefix(ws: string, s: string)
    requires forall i :: 0 <= i < |ws| ==> IsSpace(ws[i])
    ensures LStrip(ws + s) == LStrip(s)
  {
    if ws != [] {
      assert ws + s == [ws[0]] + (ws[1..] + s);
      assert forall i :: 0 <= i < |ws[1..]| ==> IsSpace(ws[1..][i]) by {
        forall i | 0 <= i < |ws[1..]| ensures IsSpace(ws[1..][i]) {
          assert ws[1..][i] == ws[i + 1];
        }
      }
      assert IsSpace(ws[0]);
      LStripLeadingSpace(ws[0], ws[1..] + s);
      LStripSpacePrefix(ws[1..], s);
      assert LStrip(ws + s) == LStrip([ws[0]] + (ws[1..] + s));
    } else {
      assert ws + s == s;
    }
  }

  /** With the correction, an indented `// text` line uncomments to `text`
      whatever its indentation, and toggling twice still restores a block of
      trimmed lines. */
  lemma UncommentFixedIgnoresIndent(ws: string, text: string)
    requires forall i :: 0 <= i < |ws| ==> IsSpace(ws[i])
    requires Trimmed(text)
    ensures UncommentFixed(ws + CommentOut(text)) == text
  {
    LStripSpacePrefix(ws, CommentOut(text));
    LStripNoLeadingSpace(CommentOut(text));
    assert CommentOut(text) == "//" + (" " + text);
    LStripMarker(" " + text);
    LStripLeadingSpace(' ', text);
    LStripNoLeadingSpace(text);
  }

  lemma ToggleFixedTwiceRestores(block: seq<string>)
    requires forall i :: 0 <= i < |block| ==> Trimmed(block[i])
    requires !AllCommented(block)
    ensures ToggleBlockFixed(ToggleBlockFixed(block)) == block
  {
    forall i | 0 <= i < |block| ensures RStripAll(block)[i] == block[i] {
      assert RStrip(block[i]) == block[i];
    }
    assert RStripAll(block) == block;
    var once := ToggleBlockFixed(block);
    forall i | 0 <= i < |once| ensures IsCommented(RStripAll(once)[i]) && UncommentFixed(RStrip(once[i])) == block[i] {
      CommentRoundTrip(block[i]);
      var c := RStrip(CommentOut(block[i]));
      assert c[..2] == "//" by {
        assert IsCommented(c);
        LStripNoLeadingSpace(c);
      }
      LStripNoLeadingSpace(c);
    }
  }

  /** The first loop of `comment_lines`: the block's lines after `rstrip`,
      and whether every one of them is commented. */
  method CollectLines(doc: seq<string>, startLine: nat, endLine: nat) returns (lines: seq<string>, allCommented: bool)
    requires startLine <= endLine < |doc|
    ensures lines == RStripAll(doc[startLine..endLine + 1])
    ensures allCommented <==> AllCommented(lines)
  {
    allCommented := true;
    lines := [];
    var line := startLine;
    while line <= endLine
      invariant startLine <= line <= endLine + 1
      invariant lines == RStripAll(doc[startLine..line])
      invariant allCommented <==> AllCommented(lines)
    {
      var text := RStrip(doc[line]);
      assert doc[startLine..line + 1] == doc[startLine..line] + [doc[line]];
      AllCommentedAppend(lines, text);
      lines := lines + [text];
      if !IsCommented(text) {
        allCommented := false;
      }
      line := line + 1;
    }
  }

  /** The second loop of `comment_lines`: every line uncommented, or every
      line commented. */
  method ToggleLines(lines: seq<string>, allCommented: bool) returns (newLines: seq<string>)
    ensures |newLines| == |lines|
    ensures forall j :: 0 <= j < |lines| ==> newLines[j] == ToggleLine(allCommented, lines[j])
  {
    newLines := [];
    var i := 0;
    while i < |lines|
      invariant 0 <= i <= |lines|
      invariant |newLines| == i
      invariant forall j :: 0 <= j < i ==> newLines[j] == ToggleLine(allCommented, lines[j])
    {
      newLines := newLines + [ToggleLine(allCommented, lines[i])];
      i := i + 1;
    }
  }

  // ---------------------------------------------------------------------
  // The editor

  class Editor {
    /** `file_path`; `None` for an editor that has never been saved. */
    var filePath: Option<string>
    /** `isModified()`. */
    var modified: bool
    /** `tags_cache`. */
    var tagsCache: Cache
    /** The document, one string per line. */
    var doc: seq<string>

    /** A fresh editor: no path, unmodified, empty cache, one empty line. */
    constructor ()
      ensures filePath == None && !modified && tagsCache == map[] && doc == [""]
    {
      filePath := None;
      modified := false;
      tagsCache := map[];
      doc := [""];
    }

    /** `update_tags_cache(tag_files)`. */
    method UpdateTagsCache(fs: FileSystem, tagFiles: seq<string>)
      modifies this`tagsCache
      ensures tagsCache == Rebuild(fs, tagFiles)
    {
      tagsCache := map[];
      var k := 0;
      while k < |tagFiles|
        invariant 0 <= k <= |tagFiles|
        invariant Rebuild(fs, tagFiles) == ProcessFiles(fs, tagFiles[k..], tagsCache)
      {
        var f := tagFiles[k];
        assert tagFiles[k..][0] == f && tagFiles[k..][1..] == tagFiles[k + 1..];
        if f !in fs {
          k := k + 1;
          continue;
        }
        if fs[f].Unreadable? {
          return;
        }
        var lines := fs[f].lines;
        ghost var start := tagsCache;
        var j := 0;
        while j < |lines|
          invariant 0 <= j <= |lines|
          invariant ProcessLines(fs, lines, start) == ProcessLines(fs, lines[j..], tagsCache)
        {
          assert lines[j..][0] == lines[j] && lines[j..][1..] == lines[j + 1..];
          var step := ReconcileLine(fs, lines[j]);
          if step.Abort? {
            return;
          }
          if step.Insert? {
            tagsCache := tagsCache[step.symbol := step.loc];
          }
          j := j + 1;
        }
        assert lines[j..] == [];
        k := k + 1;
      }
      assert tagFiles[k..] == [];
    }

    /** `gotoDefinition(word)`. `projectDir` is what the project view reports,
        `taggerOk` what `generate_ctags()` returns, `fsAfter` the file system
        after it ran. */
    method GotoDefinition(word: string, fs: FileSystem, projectDir: Option<string>, taggerOk: bool, fsAfter: FileSystem)
      returns (outcome: GotoOutcome, ranTagger: bool)
      modifies this`tagsCache
      ensures GotoResult(outcome, tagsCache, ranTagger)
                == Resolve(filePath, modified, old(tagsCache), word, fs, projectDir, taggerOk, fsAfter)
    {
      ranTagger := false;
      if filePath.None? || filePath.value == "" {
        return NoFilePath, false;
      }
      var path := filePath.value;
      var fileTag := FileTag(path);
      var fsNow := fs;
      if modified || tagsCache == map[] {
        if fileTag !in fs {
          ranTagger := true;
          if !taggerOk {
            return TaggerFailed, true;
          }
          fsNow := fsAfter;
        }
        var tagFiles := [fileTag];
        if projectDir.Some? && projectDir.value != "" {
          var projectTag := ProjectTag(projectDir.value);
          if projectTag in fsNow {
            tagFiles := tagFiles + [projectTag];
          }
        }
        UpdateTagsCache(fsNow, tagFiles);
      }
      if word in tagsCache {
        outcome := Jump(tagsCache[word]);
      } else {
        outcome := NotFound(word);
      }
    }

    /** `comment_lines()` over document lines `startLine..endLine`: the block
        is replaced by its toggle and the document becomes modified. */
    method CommentLines(startLine: nat, endLine: nat)
      requires startLine <= endLine < |doc|
      modifies this`doc, this`modified
      ensures doc == old(doc[..startLine]) + ToggleBlock(old(doc[startLine..endLine + 1])) + old(doc[endLine + 1..])
      ensures modified
    {
      var lines, allCommented := CollectLines(doc, startLine, endLine);
      var newLines := ToggleLines(lines, allCommented);
      assert newLines == ToggleBlock(doc[startLine..endLine + 1]);
      doc := doc[..startLine] + newLines + doc[endLine + 1..];
      modified := true;
    }
  }
}
