/** The parts of Python's `str` type that the editor's logic relies on, over
    `seq<char>`. Character classes (`isspace`, `isalnum`, `isdigit`, `lower`)
    are the ASCII subsets of Python's Unicode definitions. */
module PyString {

  datatype Option<T> = None | Some(value: T)

  /** `c.isspace()` for ASCII: space, \t, \n, \r, \v, \f and the separators 0x1C-0x1F. */
  predicate IsSpace(c: char) {
    c == ' ' || c == '\t' || c == '\n' || c == '\r' || c == '\U{B}' || c == '\U{C}'
    || ('\U{1C}' <= c <= '\U{1F}')
  }

  /** `c.isdigit()` for ASCII. */
  predicate IsDigit(c: char) {
    '0' <= c <= '9'
  }

  /** `c.isalnum()` for ASCII: letters and digits; `_` is not alphanumeric. */
  predicate IsAlnum(c: char) {
    IsDigit(c) || ('a' <= c <= 'z') || ('A' <= c <= 'Z')
  }

  /** `s.isdigit()`: non-empty and made of digits only. */
  predicate IsDigits(s: string) {
    |s| > 0 && forall i :: 0 <= i < |s| ==> IsDigit(s[i])
  }

  predicate StartsWith(s: string, prefix: string) {
    |prefix| <= |s| && s[..|prefix|] == prefix
  }

  predicate EndsWith(s: string, suffix: string) {
    |suffix| <= |s| && s[|s| - |suffix|..] == suffix
  }

  /** `p` occurs in `s` starting at index `i`. */
  predicate IsMatchAt(s: string, p: string, i: nat) {
    i + |p| <= |s| && s[i..i + |p|] == p
  }

  /** The index of the first non-whitespace character at or after `i` (or `|s|`). */
  function SkipSpace(s: string, i: nat): (k: nat)
    requires i <= |s|
    decreases |s| - i
    ensures i <= k <= |s|
    ensures k < |s| ==> !IsSpace(s[k])
  {
    if i < |s| && IsSpace(s[i]) then SkipSpace(s, i + 1) else i
  }

  /** `s.lstrip()`. */
  function LStrip(s: string): (r: string)
    ensures |r| <= |s|
    ensures r == [] || !IsSpace(r[0])
  {
    s[SkipSpace(s, 0)..]
  }

  lemma LStripNoLeadingSpace(s: string)
    requires s == [] || !IsSpace(s[0])
    ensures LStrip(s) == s
  {
  }

  lemma {:induction false} SkipSpaceShift(c: char, t: string, i: nat)
    requires i <= |t|
    decreases |t| - i
    ensures SkipSpace([c] + t, i + 1) == SkipSpace(t, i) + 1
  {
    assert ([c] + t)[i + 1..] == t[i..];
    if i < |t| && IsSpace(t[i]) {
      SkipSpaceShift(c, t, i + 1);
    }
  }

  lemma LStripLeadingSpace(c: char, t: string)
    requires IsSpace(c)
    ensures LStrip([c] + t) == LStrip(t)
  {
    SkipSpaceShift(c, t, 0);
    assert ([c] + t)[SkipSpace(t, 0) + 1..] == t[SkipSpace(t, 0)..];
  }

  /** `lstrip` removes whitespace and nothing else. */
  lemma LStripRemovesSpace(s: string)
    ensures forall i :: 0 <= i < |s| - |LStrip(s)| ==> IsSpace(s[i])
  {
    forall i | 0 <= i < |s| - |LStrip(s)| ensures IsSpace(s[i]) {
      SkipSpaceOnlySpace(s, 0, i);
    }
  }

  lemma {:induction false} SkipSpaceOnlySpace(s: string, i: nat, j: nat)
    requires i <= j <= |s| && j < SkipSpace(s, i)
    decreases |s| - i
    ensures IsSpace(s[j])
  {
    if i < j {
      SkipSpaceOnlySpace(s, i + 1, j);
    }
  }

  /** `s.rstrip()`. */
  function RStrip(s: string): (r: string)
    ensures |r| <= |s| && r == s[..|r|]
    ensures r == [] || !IsSpace(r[|r| - 1])
  {
    if s != [] && IsSpace(s[|s| - 1]) then RStrip(s[..|s| - 1]) else s
  }

  /** `rstrip` removes whitespace and nothing else. */
  lemma {:induction false} RStripRemovesSpace(s: string)
    ensures forall i :: |RStrip(s)| <= i < |s| ==> IsSpace(s[i])
  {
    if s != [] && IsSpace(s[|s| - 1]) {
      RStripRemovesSpace(s[..|s| - 1]);
    }
  }

  /** `s.strip()`. */
  function Strip(s: string): string {
    RStrip(LStrip(s))
  }

  /** `s.lstrip(c)` for a one-character strip set (`"//"` is the set {'/'}). */
  function LStripChar(s: string, c: char): (r: string)
    ensures |r| <= |s| && r == s[|s| - |r|..]
    ensures r == [] || r[0] != c
  {
    if s != [] && s[0] == c then LStripChar(s[1..], c) else s
  }

  /** `s.find(p, start)`: the least index at or after `start` where `p` occurs, or -1. */
  function Find(s: string, p: string, start: nat): (r: int)
    decreases |s| - start
    ensures r == -1 || (start <= r && IsMatchAt(s, p, r))
  {
    if start + |p| > |s| then -1
    else if IsMatchAt(s, p, start) then start
    else Find(s, p, start + 1)
  }

  /** `find` returns the first occurrence, and -1 only when there is none. */
  lemma {:induction false} FindIsFirst(s: string, p: string, start: nat)
    decreases |s| - start
    ensures Find(s, p, start) == -1 ==> forall i: nat :: start <= i ==> !IsMatchAt(s, p, i)
    ensures Find(s, p, start) != -1 ==> forall i: nat :: start <= i < Find(s, p, start) ==> !IsMatchAt(s, p, i)
  {
    if start + |p| <= |s| && !IsMatchAt(s, p, start) {
      FindIsFirst(s, p, start + 1);
    }
  }

  /** `p in s`. */
  predicate Contains(s: string, p: string) {
    Find(s, p, 0) != -1
  }

  lemma ContainsIff(s: string, p: string)
    ensures Contains(s, p) <==> exists i: nat :: IsMatchAt(s, p, i)
  {
    FindIsFirst(s, p, 0);
    if Find(s, p, 0) != -1 {
      var k: nat := Find(s, p, 0);
      assert IsMatchAt(s, p, k);
    }
  }

  function LowerChar(c: char): (r: char)
    ensures 'A' <= c <= 'Z' ==> r as int == c as int + 32
    ensures !('A' <= c <= 'Z') ==> r == c
  {
    if 'A' <= c <= 'Z' then (c as int + 32) as char else c
  }

  /** `s.lower()`: ASCII upper-case letters become lower case, nothing else changes. */
  function Lower(s: string): (r: string)
    ensures |r| == |s|
    ensures forall i :: 0 <= i < |s| ==> r[i] == LowerChar(s[i])
  {
    seq(|s|, i requires 0 <= i < |s| => LowerChar(s[i]))
  }

  function DigitValue(c: char): nat
    requires IsDigit(c)
  {
    c as int - '0' as int
  }

  /** The value of a string of decimal digits (leading zeros allowed). */
  function DecimalValue(s: string): nat
    requires forall i :: 0 <= i < |s| ==> IsDigit(s[i])
  {
    if s == [] then 0 else DecimalValue(s[..|s| - 1]) * 10 + DigitValue(s[|s| - 1])
  }

  /** `int(s)` on a str: optional surrounding whitespace, an optional sign and
      decimal digits; anything else raises, which is `None` here. */
  function ParseInt(s: string): (r: Option<int>)
    ensures IsDigits(Strip(s)) ==> r == Some(DecimalValue(Strip(s)))
    ensures r.None? <==>
      !IsDigits(Strip(s)) && !(|Strip(s)| > 0 && (Strip(s)[0] == '+' || Strip(s)[0] == '-') && IsDigits(Strip(s)[1..]))
    ensures |Strip(s)| > 0 && Strip(s)[0] == '-' && IsDigits(Strip(s)[1..]) ==>
      r == Some(-(DecimalValue(Strip(s)[1..]) as int))
    ensures |Strip(s)| > 0 && Strip(s)[0] == '+' && IsDigits(Strip(s)[1..]) ==>
      r == Some(DecimalValue(Strip(s)[1..]) as int)
  {
    var t := Strip(s);
    if IsDigits(t) then Some(DecimalValue(t))
    else if |t| > 0 && (t[0] == '+' || t[0] == '-') && IsDigits(t[1..]) then
      var v: int := DecimalValue(t[1..]);
      Some(if t[0] == '-' then -v else v)
    else None
  }

  /** The index of the first `c` at or after `i`, or `|s|` when there is none. */
  function IndexOf(s: string, c: char, i: nat): (k: nat)
    requires i <= |s|
    decreases |s| - i
    ensures i <= k <= |s|
    ensures k < |s| ==> s[k] == c
    ensures forall j :: i <= j < k ==> s[j] != c
  {
    if i == |s| || s[i] == c then i else IndexOf(s, c, i + 1)
  }

  /** `s.split(c)` for a one-character separator: never empty, keeps empty fields. */
  function Split(s: string, c: char): (r: seq<string>)
    decreases |s|
    ensures |r| >= 1
    ensures forall k :: 0 <= k < |r| ==> c !in r[k]
  {
    var k := IndexOf(s, c, 0);
    if k == |s| then [s] else [s[..k]] + Split(s[k + 1..], c)
  }

  /** `sep.join(xs)`. */
  function Join(xs: seq<string>, sep: string): string {
    if xs == [] then ""
    else if |xs| == 1 then xs[0]
    else xs[0] + sep + Join(xs[1..], sep)
  }

  /** Splitting on `c` and joining with `c` gives the string back. */
  lemma {:induction false} JoinSplit(s: string, c: char)
    decreases |s|
    ensures Join(Split(s, c), [c]) == s
  {
    var k := IndexOf(s, c, 0);
    if k < |s| {
      var rest := s[k + 1..];
      var pieces := Split(rest, c);
      JoinSplit(rest, c);
      assert Split(s, c) == [s[..k]] + pieces;
      assert ([s[..k]] + pieces)[1..] == pieces;
      assert s == s[..k] + [c] + rest;
    }
  }

  /** The leading run of non-whitespace characters of `s`. */
  function Word(s: string): (r: string)
    ensures |r| <= |s| && r == s[..|r|]
    ensures forall i :: 0 <= i < |r| ==> !IsSpace(r[i])
    ensures |r| < |s| ==> IsSpace(s[|r|])
  {
    if s == [] || IsSpace(s[0]) then [] else [s[0]] + Word(s[1..])
  }

  /** A token that `str.split()` returns unchanged: non-empty, without whitespace. */
  predicate IsToken(w: string) {
    w != [] && forall i :: 0 <= i < |w| ==> !IsSpace(w[i])
  }

  /** `s.split()` with no argument: the maximal runs of non-whitespace characters. */
  function SplitWhitespace(s: string): (r: seq<string>)
    decreases |s|
    ensures forall k :: 0 <= k < |r| ==> IsToken(r[k])
  {
    var t := LStrip(s);
    if t == [] then [] else
      var w := Word(t);
      [w] + SplitWhitespace(t[|w|..])
  }

  lemma WordOfToken(w: string, rest: string)
    requires IsToken(w)
    requires rest == [] || IsSpace(rest[0])
    ensures Word(w + rest) == w
  {
    assert (w + rest)[..|w|] == w;
  }

  /** Joining tokens with one space and splitting on whitespace gives the tokens back. */
  lemma {:induction false} SplitJoinTokens(xs: seq<string>)
    requires forall k :: 0 <= k < |xs| ==> IsToken(xs[k])
    ensures SplitWhitespace(Join(xs, " ")) == xs
  {
    if xs == [] {
    } else if |xs| == 1 {
      var w := xs[0];
      LStripNoLeadingSpace(w);
      WordOfToken(w, "");
      assert w + "" == w;
      assert w[|w|..] == [];
      assert SplitWhitespace(w) == [w] + SplitWhitespace([]);
    } else {
      var w := xs[0];
      var tail := Join(xs[1..], " ");
      var s := w + " " + tail;
      assert Join(xs, " ") == s;
      LStripNoLeadingSpace(s);
      WordOfToken(w, " " + tail);
      assert s == w + (" " + tail);
      assert s[|w|..] == " " + tail;
      assert SplitWhitespace(s) == [w] + SplitWhitespace(" " + tail);
      LStripLeadingSpace(' ', tail);
      assert SplitWhitespace(" " + tail) == SplitWhitespace(tail);
      SplitJoinTokens(xs[1..]);
    }
  }

  /** `s.count(p)` for a non-empty `p`, from index `i`: occurrences counted left
      to right without overlap, the scan resuming after each one. */
  function CountFrom(s: string, p: string, i: nat): nat
    requires |p| > 0
    decreases |s| - i
  {
    if i + |p| > |s| then 0
    else if IsMatchAt(s, p, i) then 1 + CountFrom(s, p, i + |p|)
    else CountFrom(s, p, i + 1)
  }

  /** `s.count(p)`. Python returns `len(s) + 1` for an empty `p`. */
  function Count(s: string, p: string): nat {
    if p == [] then |s| + 1 else CountFrom(s, p, 0)
  }

  /** Every index at or after `i` where `p` occurs, in increasing order
      (overlapping occurrences included). */
  function OccurrencesFrom(s: string, p: string, i: nat): (r: seq<nat>)
    decreases |s| - i
    ensures forall k :: 0 <= k < |r| ==> i <= r[k]
  {
    if i + |p| > |s| then []
    else if IsMatchAt(s, p, i) then [i] + OccurrencesFrom(s, p, i + 1)
    else OccurrencesFrom(s, p, i + 1)
  }

  /** The occurrence list holds exactly the matching indices at or after `i`,
      each once and in increasing order. */
  lemma {:induction false} OccurrencesExact(s: string, p: string, i: nat)
    decreases |s| - i
    ensures forall k :: 0 <= k < |OccurrencesFrom(s, p, i)| ==> IsMatchAt(s, p, OccurrencesFrom(s, p, i)[k])
    ensures forall k, l :: 0 <= k < l < |OccurrencesFrom(s, p, i)| ==>
      OccurrencesFrom(s, p, i)[k] < OccurrencesFrom(s, p, i)[l]
    ensures forall j: nat :: i <= j && IsMatchAt(s, p, j) ==> j in OccurrencesFrom(s, p, i)
  {
    if i + |p| <= |s| {
      OccurrencesExact(s, p, i + 1);
    }
  }

  lemma {:induction false} OccurrencesShrink(s: string, p: string, i: nat, j: nat)
    requires i <= j
    decreases j - i
    ensures |OccurrencesFrom(s, p, j)| <= |OccurrencesFrom(s, p, i)|
  {
    if i < j {
      OccurrencesShrink(s, p, i + 1, j);
    }
  }

  /** The non-overlapping count never exceeds the number of (possibly
      overlapping) occurrences. */
  lemma {:induction false} CountAtMostOccurrences(s: string, p: string, i: nat)
    requires |p| > 0
    decreases |s| - i
    ensures CountFrom(s, p, i) <= |OccurrencesFrom(s, p, i)|
  {
    if i + |p| > |s| {
    } else if IsMatchAt(s, p, i) {
      CountAtMostOccurrences(s, p, i + |p|);
      OccurrencesShrink(s, p, i + 1, i + |p|);
    } else {
      CountAtMostOccurrences(s, p, i + 1);
    }
  }

  /** The count is zero exactly when there is no occurrence. */
  lemma {:induction false} CountZeroIff(s: string, p: string, i: nat)
    requires |p| > 0
    decreases |s| - i
    ensures CountFrom(s, p, i) == 0 <==> OccurrencesFrom(s, p, i) == []
  {
    if i + |p| <= |s| && !IsMatchAt(s, p, i) {
      CountZeroIff(s, p, i + 1);
    }
  }
}
