/** The few `pathlib` operations the editor uses, for POSIX paths written
    without redundant separators. */
module Paths {

  /** The index of the last `c` in `s`, or -1. */
  function LastIndexOf(s: string, c: char): (r: int)
    ensures -1 <= r < |s|
    ensures r >= 0 ==> s[r] == c
    ensures forall i :: r < i < |s| ==> s[i] != c
  {
    if s == [] then -1
    else if s[|s| - 1] == c then |s| - 1
    else LastIndexOf(s[..|s| - 1], c)
  }

  /** `Path(p).name`: the text after the last `/`. */
  function Name(p: string): (r: string)
    ensures '/' !in r
    ensures EndsWithName(p, r)
  {
    p[LastIndexOf(p, '/') + 1..]
  }

  ghost predicate EndsWithName(p: string, r: string) {
    |r| <= |p| && p[|p| - |r|..] == r && (|r| == |p| || p[|p| - |r| - 1] == '/')
  }

  /** `Path(p).suffix`: the name from its last `.` on, provided that dot is
      neither the first nor the last character of the name; otherwise empty. */
  function Suffix(p: string): (r: string)
    ensures r == [] || (r[0] == '.' && |r| >= 2 && '.' !in r[1..])
  {
    var name := Name(p);
    var i := LastIndexOf(name, '.');
    if 0 < i < |name| - 1 then name[i..] else ""
  }

  /** `Path(p).parent`: everything before the last `/`; `/` for a top-level
      entry and `.` for a bare name. */
  function Parent(p: string): string {
    var k := LastIndexOf(p, '/');
    if k == -1 then "." else if k == 0 then "/" else p[..k]
  }

  /** `str(Path(a) / b)`. */
  function JoinPath(a: string, b: string): string {
    if |b| > 0 && b[0] == '/' then b
    else if b == "" then a
    else if a == "." then b
    else if |a| > 0 && a[|a| - 1] == '/' then a + b
    else a + "/" + b
  }
}
