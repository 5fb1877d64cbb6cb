/** `ProjectManager` of Compiler.py: the project's list of C sources, its
    output name and compiler flags, and the gcc command line built from them.
    The JSON project file and the `build` directory's creation are not
    modelled. */
module Compiler {
  import opened PyString
  import Paths

  /** `Path(p).suffix.lower() == ".c"`. */
  predicate IsCSource(p: string) {
    Lower(Paths.Suffix(p)) == ".c"
  }

  /** No path occurs twice. */
  predicate NoDuplicates(files: seq<string>) {
    forall i, j :: 0 <= i < j < |files| ==> files[i] != files[j]
  }

  /** `list.remove(p)`: drop the first occurrence of `p`, if any. */
  function RemoveFirst(files: seq<string>, p: string): (r: seq<string>)
    ensures p !in files ==> r == files
    ensures p in files ==> |r| == |files| - 1
    ensures multiset(r) == multiset(files) - multiset{p}
  {
    if files == [] then []
    else if files[0] == p then
      assert files == [files[0]] + files[1..];
      files[1..]
    else
      assert files == [files[0]] + files[1..];
      [files[0]] + RemoveFirst(files[1..], p)
  }

  /** The source list after `add_file(p)`. */
  function Added(files: seq<string>, p: string): seq<string> {
    if p !in files && IsCSource(p) then files + [p] else files
  }

  /** The source list after `remove_file(p)`. */
  function Removed(files: seq<string>, p: string): seq<string> {
    if p in files then RemoveFirst(files, p) else files
  }

  /** What `get_build_command` gives: None for no sources, the exception of
      `None.parent` when no project file is set, or the argument list. */
  datatype BuildCommand = NoSources | NoProject | Command(args: seq<string>)

  /** `str(project_file.parent / "build" / output_file)`. */
  function OutputPath(projectFile: string, outputFile: string): string {
    Paths.JoinPath(Paths.JoinPath(Paths.Parent(projectFile), "build"), outputFile)
  }

  /** `[compiler_path] + compile_flags + source_files + ["-o", output]`. */
  function BuildArgs(projectFile: Option<string>, sources: seq<string>, outputFile: string,
                     flags: seq<string>, compiler: string): BuildCommand {
    if sources == [] then NoSources
    else if projectFile.None? then NoProject
    else Command([compiler] + flags + sources + ["-o", OutputPath(projectFile.value, outputFile)])
  }

  datatype Op = Add(path: string) | Remove(path: string)

  /** The source list after a series of `add_file` / `remove_file` calls. */
  function ApplyAll(files: seq<string>, ops: seq<Op>): seq<string>
    decreases |ops|
  {
    if ops == [] then files
    else
      var next := match ops[0] case Add(p) => Added(files, p) case Remove(p) => Removed(files, p);
      ApplyAll(next, ops[1..])
  }

  // ---------------------------------------------------------------------
  // Properties

  /** `add_file` succeeds exactly for a new `.c` path, appending it;
      otherwise the list is unchanged. */
  lemma AddFileRule(files: seq<string>, p: string)
    ensures Added(files, p) == files + [p] <==> p !in files && IsCSource(p)
    ensures !(p !in files && IsCSource(p)) ==> Added(files, p) == files
  {
    if p !in files && IsCSource(p) {
      assert |files + [p]| != |files|;
    }
  }

  /** The suffix test ignores case: `main.C` is a C source, `main.h` and a
      file named `.c` are not. */
  lemma SuffixExamples()
    ensures IsCSource("main.C") && !IsCSource("main.h") && !IsCSource(".c")
  {
    assert Paths.LastIndexOf("main.C", '/') == -1;
    assert Paths.Name("main.C") == "main.C";
    assert Paths.LastIndexOf("main.C", '.') == 4;
    assert Paths.Suffix("main.C") == ".C";
    assert Lower(".C") == ".c";
    assert Paths.LastIndexOf("main.h", '/') == -1;
    assert Paths.LastIndexOf("main.h", '.') == 4;
    assert Paths.Suffix("main.h") == ".h";
    assert Lower(".h")[1] == 'h';
    assert Paths.LastIndexOf(".c", '/') == -1;
    assert Paths.LastIndexOf(".c", '.') == 0;
    assert Paths.Suffix(".c") == "";
  }

  /** `remove_file` drops a present path (one occurrence, the rest in
      order) and leaves the list unchanged for an absent one. */
  lemma {:induction false} RemoveFirstKeepsOrder(files: seq<string>, p: string, i: nat)
    requires i < |files| && files[i] == p
    requires forall j :: 0 <= j < i ==> files[j] != p
    ensures Removed(files, p) == files[..i] + files[i + 1..]
  {
    if i > 0 {
      RemoveFirstKeepsOrder(files[1..], p, i - 1);
      assert files[1..][..i - 1] == files[1..i];
      assert files[1..][i..] == files[i + 1..];
      assert [files[0]] + files[1..i] == files[..i];
    }
  }

  /** Removing from a duplicate-free list leaves the path absent. */
  lemma RemovedAbsent(files: seq<string>, p: string)
    requires NoDuplicates(files)
    ensures p !in Removed(files, p)
  {
    if p in files {
      var i :| 0 <= i < |files| && files[i] == p;
      MultiplicityOne(files, i);
      assert multiset(Removed(files, p))[p] == 0;
    }
  }

  lemma {:induction false} MultiplicityOne(files: seq<string>, i: nat)
    requires NoDuplicates(files) && i < |files|
    ensures multiset(files)[files[i]] == 1
  {
    if i == 0 {
      assert files == [files[0]] + files[1..];
      assert files[0] !in files[1..] by {
        forall j | 0 <= j < |files[1..]| ensures files[1..][j] != files[0] {
          assert files[1..][j] == files[j + 1];
        }
      }
    } else {
      assert files == [files[0]] + files[1..];
      assert NoDuplicates(files[1..]) by {
        forall a, b | 0 <= a < b < |files[1..]| ensures files[1..][a] != files[1..][b] {
          assert files[1..][a] == files[a + 1] && files[1..][b] == files[b + 1];
        }
      }
      MultiplicityOne(files[1..], i - 1);
      assert files[1..][i - 1] == files[i];
      assert files[0] != files[i];
    }
  }

  /** Both operations keep a duplicate-free list duplicate-free. */
  lemma OpKeepsNoDuplicates(files: seq<string>, op: Op)
    requires NoDuplicates(files)
    ensures NoDuplicates(match op case Add(p) => Added(files, p) case Remove(p) => Removed(files, p))
  {
    match op
    case Add(p) =>
    case Remove(p) =>
      if p in files {
        var r := RemoveFirst(files, p);
        forall i, j | 0 <= i < j < |r| ensures r[i] != r[j] {
          if r[i] == r[j] {
            assert multiset(r)[r[i]] >= 2 by {
              TwoOccurrences(r, i, j);
            }
            assert multiset(files)[r[i]] >= 2;
            var k :| 0 <= k < |files| && files[k] == r[i] by {
              assert r[i] in multiset(files);
            }
            MultiplicityOne(files, k);
          }
        }
      }
  }

  lemma {:induction false} TwoOccurrences(s: seq<string>, i: nat, j: nat)
    requires i < j < |s| && s[i] == s[j]
    ensures multiset(s)[s[i]] >= 2
  {
    assert s == s[..j] + [s[j]] + s[j + 1..];
    assert s[i] in s[..j] by {
      assert s[..j][i] == s[i];
    }
    assert multiset(s) == multiset(s[..j]) + multiset{s[j]} + multiset(s[j + 1..]);
  }

  /** Both operations only ever bring in a `.c` path. */
  lemma OpKeepsOrigins(files: seq<string>, op: Op)
    ensures var next := match op case Add(p) => Added(files, p) case Remove(p) => Removed(files, p);
            forall x :: x in next ==> x in files || IsCSource(x)
  {
    if op.Remove? && op.path in files {
      var next := RemoveFirst(files, op.path);
      forall x | x in next ensures x in files {
        assert multiset(next)[x] <= multiset(files)[x];
      }
    }
  }

  /** Starting from the empty list of `load_default_config`, any series of
      `add_file` / `remove_file` calls leaves no duplicate. */
  lemma {:induction false} NoDuplicatesAfterAnyOps(files: seq<string>, ops: seq<Op>)
    requires NoDuplicates(files)
    decreases |ops|
    ensures NoDuplicates(ApplyAll(files, ops))
    ensures forall x :: x in ApplyAll(files, ops) ==> x in files || IsCSource(x)
  {
    if ops != [] {
      var next := match ops[0] case Add(p) => Added(files, p) case Remove(p) => Removed(files, p);
      OpKeepsNoDuplicates(files, ops[0]);
      OpKeepsOrigins(files, ops[0]);
      NoDuplicatesAfterAnyOps(next, ops[1..]);
      assert ApplyAll(files, ops) == ApplyAll(next, ops[1..]);
    }
  }

  /** Adding a new `.c` path and removing it gives the list back. */
  lemma AddThenRemove(files: seq<string>, p: string)
    requires p !in files && IsCSource(p)
    ensures Removed(Added(files, p), p) == files
  {
    RemoveFirstKeepsOrder(files + [p], p, |files|);
    assert (files + [p])[..|files|] == files;
  }

  /** The build command is None exactly for an empty source list; otherwise
      it is the compiler, the flags, the sources and `-o <output>`, in that
      order. */
  lemma BuildCommandShape(projectFile: Option<string>, sources: seq<string>, outputFile: string,
                          flags: seq<string>, compiler: string)
    ensures BuildArgs(projectFile, sources, outputFile, flags, compiler).NoSources? <==> sources == []
    ensures sources != [] && projectFile.Some? ==>
              var r := BuildArgs(projectFile, sources, outputFile, flags, compiler);
              var f, n := |flags|, |sources|;
              r.Command? && |r.args| == 1 + f + n + 2 &&
              r.args[0] == compiler && r.args[1..1 + f] == flags &&
              r.args[1 + f..1 + f + n] == sources &&
              r.args[1 + f + n] == "-o" &&
              r.args[2 + f + n] == OutputPath(projectFile.value, outputFile)
  {
    if sources != [] && projectFile.Some? {
      var args := [compiler] + flags + sources + ["-o", OutputPath(projectFile.value, outputFile)];
      assert args[1..1 + |flags|] == flags;
      assert args[1 + |flags|..1 + |flags| + |sources|] == sources;
    }
  }

  /** The output goes into the `build` directory beside the project file. */
  lemma OutputInBuildDir(projectFile: string, outputFile: string)
    requires outputFile != [] && outputFile[0] != '/'
    requires Paths.LastIndexOf(projectFile, '/') > 0
    requires var parent := projectFile[..Paths.LastIndexOf(projectFile, '/')];
             parent != "." && parent[|parent| - 1] != '/'
    ensures OutputPath(projectFile, outputFile) ==
              projectFile[..Paths.LastIndexOf(projectFile, '/')] + "/build/" + outputFile
  {
    var k := Paths.LastIndexOf(projectFile, '/');
    var parent := projectFile[..k];
    assert Paths.Parent(projectFile) == parent;
    assert Paths.JoinPath(parent, "build") == parent + "/" + "build";
    var dir := parent + "/" + "build";
    assert dir[|dir| - 1] == 'd';
    assert dir != ".";
  }

  /** The flags dialog shows `" ".join(compile_flags)` and saves its
      whitespace split: saved unchanged, flags without blanks come back
      as they were. */
  lemma FlagsRoundTrip(flags: seq<string>)
    requires forall k :: 0 <= k < |flags| ==> IsToken(flags[k])
    ensures SplitWhitespace(Join(flags, " ")) == flags
  {
    SplitJoinTokens(flags);
  }

  // ---------------------------------------------------------------------
  // The manager

  class ProjectManager {
    var projectFile: Option<string>
    var sourceFiles: seq<string>
    var outputFile: string
    var compileFlags: seq<string>

    /** `__init__`: no project, then the defaults. */
    constructor ()
      ensures projectFile.None? && sourceFiles == [] && outputFile == "output.exe" && compileFlags == ["-Wall"]
    {
      projectFile := None;
      sourceFiles, outputFile, compileFlags := [], "output.exe", ["-Wall"];
    }

    method LoadDefaultConfig()
      modifies this`sourceFiles, this`outputFile, this`compileFlags
      ensures sourceFiles == [] && outputFile == "output.exe" && compileFlags == ["-Wall"]
    {
      sourceFiles := [];
      outputFile := "output.exe";
      compileFlags := ["-Wall"];
    }

    method AddFile(p: string) returns (ok: bool)
      modifies this`sourceFiles
      ensures ok <==> p !in old(sourceFiles) && IsCSource(p)
      ensures sourceFiles == if ok then old(sourceFiles) + [p] else old(sourceFiles)
      ensures sourceFiles == Added(old(sourceFiles), p)
    {
      if p !in sourceFiles && Lower(Paths.Suffix(p)) == ".c" {
        sourceFiles := sourceFiles + [p];
        return true;
      }
      return false;
    }

    method RemoveFile(p: string) returns (ok: bool)
      modifies this`sourceFiles
      ensures ok <==> p in old(sourceFiles)
      ensures sourceFiles == Removed(old(sourceFiles), p)
      ensures !ok ==> sourceFiles == old(sourceFiles)
    {
      if p in sourceFiles {
        sourceFiles := RemoveFirst(sourceFiles, p);
        return true;
      }
      return false;
    }

    method GetBuildCommand(compiler: string) returns (r: BuildCommand)
      ensures r == BuildArgs(projectFile, sourceFiles, outputFile, compileFlags, compiler)
    {
      if sourceFiles == [] {
        return NoSources;
      }
      if projectFile.None? {
        return NoProject;
      }
      var output := OutputPath(projectFile.value, outputFile);
      r := Command([compiler] + compileFlags + sourceFiles + ["-o", output]);
    }

    /** `ProjectConfigDialog.save_config` with the two line edits' texts. */
    method SaveConfig(outputText: string, flagsText: string)
      modifies this`outputFile, this`compileFlags
      ensures outputFile == outputText && compileFlags == SplitWhitespace(flagsText)
    {
      outputFile := outputText;
      compileFlags := SplitWhitespace(flagsText);
    }
  }
}
