/** The plain-text parts of the Find/Replace dialog (dialogs/find_dialog.py):
    Find All in the current document, the conversion of a match offset to a
    (line, column) pair, Count, and the test made before a Replace. Regular
    expression modes are not part of this model. */
module FindDialog {
  import opened PyString
  import Paths

  /** The text actually searched: lower-cased unless Match Case is on. */
  function Searched(s: string, matchCase: bool): (r: string)
    ensures |r| == |s|
  {
    if matchCase then s else Lower(s)
  }

  /** The whole-word test at a match of length `n` at `i`: no alphanumeric
      character just before or just after it. */
  predicate WholeWordAt(content: string, i: nat, n: nat) {
    && i + n <= |content|
    && (i == 0 || !IsAlnum(content[i - 1]))
    && (i + n == |content| || !IsAlnum(content[i + n]))
  }

  /** The `(start, end)` spans kept from a list of match indices. */
  function Spans(content: string, n: nat, occ: seq<nat>, wholeWord: bool): seq<(nat, nat)> {
    if occ == [] then []
    else
      (if !wholeWord || WholeWordAt(content, occ[0], n) then [(occ[0], occ[0] + n)] else [])
        + Spans(content, n, occ[1..], wholeWord)
  }

  /** What normal-mode Find All collects in `matches`. An empty search text
      collects nothing (the dialog only shows a message). */
  function FindAll(fullText: string, text: string, matchCase: bool, wholeWord: bool): seq<(nat, nat)> {
    if text == [] then []
    else
      var content := Searched(fullText, matchCase);
      var search := Searched(text, matchCase);
      Spans(content, |search|, OccurrencesFrom(content, search, 0), wholeWord)
  }

  /** One call of `content.find(search_text, start)`: either there is no
      occurrence left, or the list of occurrences from `start` begins with the
      one found. */
  lemma {:induction false} FindAdvances(s: string, p: string, start: nat)
    decreases |s| - start
    ensures Find(s, p, start) == -1 ==> OccurrencesFrom(s, p, start) == []
    ensures Find(s, p, start) != -1 ==>
              OccurrencesFrom(s, p, start) == [Find(s, p, start) as nat] + OccurrencesFrom(s, p, Find(s, p, start) + 1)
  {
    if start + |p| <= |s| && !IsMatchAt(s, p, start) {
      FindAdvances(s, p, start + 1);
    }
  }

  /** Normal-mode Find All in `find_all_current`: with Match Case off, both
      texts are lower-cased first. */
  method FindAllCurrent(fullText: string, text: string, matchCase: bool, wholeWord: bool)
    returns (matches: seq<(nat, nat)>)
    ensures matches == FindAll(fullText, text, matchCase, wholeWord)
  {
    if text == [] {
      return [];
    }
    var searchText, content := text, fullText;
    if !matchCase {
      searchText := Lower(text);
      content := Lower(fullText);
    }
    matches := CollectMatches(content, searchText, wholeWord);
  }

  /** The `while True` loop: `find` from `start`, keep the match if the
      whole-word test (`before and after`) allows it, resume at `index + 1`. */
  method CollectMatches(content: string, searchText: string, wholeWord: bool) returns (matches: seq<(nat, nat)>)
    requires searchText != []
    ensures matches == Spans(content, |searchText|, OccurrencesFrom(content, searchText, 0), wholeWord)
  {
    matches := [];
    var start: nat := 0;
    while true
      invariant Spans(content, |searchText|, OccurrencesFrom(content, searchText, 0), wholeWord)
                  == matches + Spans(content, |searchText|, OccurrencesFrom(content, searchText, start), wholeWord)
      decreases |content| - start
    {
      var index := Find(content, searchText, start);
      FindAdvances(content, searchText, start);
      if index == -1 {
        break;
      }
      ghost var before := matches;
      if !wholeWord || WholeWordAt(content, index, |searchText|) {
        matches := matches + [(index, index + |searchText|)];
      }
      CollectStep(content, searchText, wholeWord, start, index, before, matches);
      start := index + 1;
    }
  }

  /** One turn of the loop keeps the collected spans plus the spans still to
      come equal to the whole list. */
  lemma CollectStep(content: string, p: string, wholeWord: bool, start: nat, index: nat,
                    before: seq<(nat, nat)>, after: seq<(nat, nat)>)
    requires Find(content, p, start) == index
    requires after == if !wholeWord || WholeWordAt(content, index, |p|) then before + [(index, index + |p|)] else before
    ensures before + Spans(content, |p|, OccurrencesFrom(content, p, start), wholeWord)
              == after + Spans(content, |p|, OccurrencesFrom(content, p, index + 1), wholeWord)
  {
    FindAdvances(content, p, start);
    SpansStep(content, |p|, wholeWord, index, OccurrencesFrom(content, p, index + 1), before, after);
  }

  lemma SpansStep(content: string, n: nat, wholeWord: bool, o: nat, rest: seq<nat>,
                  before: seq<(nat, nat)>, after: seq<(nat, nat)>)
    requires after == if !wholeWord || WholeWordAt(content, o, n) then before + [(o, o + n)] else before
    ensures before + Spans(content, n, [o] + rest, wholeWord) == after + Spans(content, n, rest, wholeWord)
  {
    SpansCons(content, n, o, rest, wholeWord);
    var tail := Spans(content, n, rest, wholeWord);
    if !wholeWord || WholeWordAt(content, o, n) {
      assert before + ([(o, o + n)] + tail) == (before + [(o, o + n)]) + tail;
    } else {
      assert [] + tail == tail;
    }
  }

  lemma SpansCons(content: string, n: nat, o: nat, rest: seq<nat>, wholeWord: bool)
    ensures Spans(content, n, [o] + rest, wholeWord)
              == (if !wholeWord || WholeWordAt(content, o, n) then [(o, o + n)] else []) + Spans(content, n, rest, wholeWord)
  {
    assert ([o] + rest)[1..] == rest;
  }

  ghost predicate Increasing(occ: seq<nat>) {
    forall k, l :: 0 <= k < l < |occ| ==> occ[k] < occ[l]
  }

  ghost predicate IncreasingStarts(r: seq<(nat, nat)>) {
    forall k, l :: 0 <= k < l < |r| ==> r[k].0 < r[l].0
  }

  /** The spans are the indices that pass the filter, paired with their ends. */
  lemma {:induction false} SpansMembers(content: string, n: nat, occ: seq<nat>, wholeWord: bool)
    ensures forall i, j :: (i, j) in Spans(content, n, occ, wholeWord) <==>
              i in occ && j == i + n && (!wholeWord || WholeWordAt(content, i, n))
  {
    if occ != [] {
      SpansMembers(content, n, occ[1..], wholeWord);
      assert occ == [occ[0]] + occ[1..];
      SpansCons(content, n, occ[0], occ[1..], wholeWord);
    }
  }

  lemma {:induction false} SpansIncreasing(content: string, n: nat, occ: seq<nat>, wholeWord: bool)
    requires Increasing(occ)
    ensures IncreasingStarts(Spans(content, n, occ, wholeWord))
  {
    if occ != [] {
      var rest := occ[1..];
      IncreasingRest(occ);
      SpansIncreasing(content, n, rest, wholeWord);
      SpansAbove(content, n, occ, wholeWord);
      var tail := Spans(content, n, rest, wholeWord);
      assert Spans(content, n, occ, wholeWord) ==
        (if !wholeWord || WholeWordAt(content, occ[0], n) then [(occ[0], occ[0] + n)] else []) + tail;
      if !wholeWord || WholeWordAt(content, occ[0], n) {
        ConsIncreasing((occ[0], occ[0] + n), tail);
      } else {
        assert [] + tail == tail;
      }
    }
  }

  lemma IncreasingRest(occ: seq<nat>)
    requires Increasing(occ) && occ != []
    ensures Increasing(occ[1..])
  {
    var rest := occ[1..];
    forall k, l | 0 <= k < l < |rest| ensures rest[k] < rest[l] {
      assert rest[k] == occ[k + 1] && rest[l] == occ[l + 1];
    }
  }

  /** Every span after the first occurrence starts above it. */
  lemma SpansAbove(content: string, n: nat, occ: seq<nat>, wholeWord: bool)
    requires Increasing(occ) && occ != []
    ensures forall k :: 0 <= k < |Spans(content, n, occ[1..], wholeWord)| ==>
              occ[0] < Spans(content, n, occ[1..], wholeWord)[k].0
  {
    var rest := occ[1..];
    SpansMembers(content, n, rest, wholeWord);
    var tail := Spans(content, n, rest, wholeWord);
    forall k | 0 <= k < |tail| ensures occ[0] < tail[k].0 {
      assert tail[k] in tail;
      assert tail[k].0 in rest;
      var j :| 0 <= j < |rest| && rest[j] == tail[k].0;
      assert rest[j] == occ[j + 1];
    }
  }

  lemma ConsIncreasing(x: (nat, nat), tail: seq<(nat, nat)>)
    requires IncreasingStarts(tail)
    requires forall k :: 0 <= k < |tail| ==> x.0 < tail[k].0
    ensures IncreasingStarts([x] + tail)
  {
    var r := [x] + tail;
    forall k, l | 0 <= k < l < |r| ensures r[k].0 < r[l].0 {
      assert r[l] == tail[l - 1];
      if k > 0 {
        assert r[k] == tail[k - 1];
      }
    }
  }

  /** Find All reports every (possibly overlapping) match in the searched
      text that passes the whole-word test, each once, in increasing order,
      as `(index, index + len(text))`. */
  lemma FindAllExact(fullText: string, text: string, matchCase: bool, wholeWord: bool)
    requires text != []
    ensures forall i: nat, j :: (i, j) in FindAll(fullText, text, matchCase, wholeWord) <==>
              && IsMatchAt(Searched(fullText, matchCase), Searched(text, matchCase), i)
              && j == i + |text|
              && (!wholeWord || WholeWordAt(Searched(fullText, matchCase), i, |text|))
    ensures IncreasingStarts(FindAll(fullText, text, matchCase, wholeWord))
  {
    var content := Searched(fullText, matchCase);
    var search := Searched(text, matchCase);
    var occ := OccurrencesFrom(content, search, 0);
    OccurrencesExact(content, search, 0);
    SpansMembers(content, |search|, occ, wholeWord);
    SpansIncreasing(content, |search|, occ, wholeWord);
  }

  lemma LowerSlice(s: string, i: nat, j: nat)
    requires i <= j <= |s|
    ensures Lower(s)[i..j] == Lower(s[i..j])
  {
  }

  /** Without Match Case, a reported index points into the original text at
      a slice equal to the search text up to case. */
  lemma CaseInsensitiveMatch(fullText: string, text: string, wholeWord: bool, k: nat)
    requires text != [] && k < |FindAll(fullText, text, false, wholeWord)|
    ensures var i := FindAll(fullText, text, false, wholeWord)[k].0;
            i + |text| <= |fullText| && Lower(fullText[i..i + |text|]) == Lower(text)
  {
    FindAllExact(fullText, text, false, wholeWord);
    var r := FindAll(fullText, text, false, wholeWord);
    assert r[k] in r;
    var i := r[k].0;
    LowerSlice(fullText, i, i + |text|);
  }

  // ---------------------------------------------------------------------
  // Offsets to positions

  /** `full_text.count('\n', 0, o)` and `full_text.rfind('\n', 0, o)` turned
      into a 0-based (line, column). */
  function OffsetToPosition(text: string, o: nat): (nat, int)
    requires o <= |text|
  {
    var prefix := text[..o];
    var lastNl := Paths.LastIndexOf(prefix, '\n');
    (Count(prefix, "\n"), o - (if lastNl != -1 then lastNl + 1 else 0))
  }

  /** The position reached by walking over `s` from (0, 0): a newline starts
      the next line, any other character moves one column right. */
  function Walk(s: string): (nat, nat) {
    if s == [] then (0, 0)
    else
      var w := Walk(s[..|s| - 1]);
      if s[|s| - 1] == '\n' then (w.0 + 1, 0) else (w.0, w.1 + 1)
  }

  /** The number of `c` in `s[i..]`. */
  function Occurrences(s: string, c: char, i: nat): nat
    decreases |s| - i
  {
    if i >= |s| then 0 else (if s[i] == c then 1 else 0) + Occurrences(s, c, i + 1)
  }

  lemma {:induction false} CountSingleChar(s: string, c: char, i: nat)
    decreases |s| - i
    ensures CountFrom(s, [c], i) == Occurrences(s, c, i)
  {
    if i < |s| {
      assert IsMatchAt(s, [c], i) <==> s[i] == c by {
        assert |s[i..i + 1]| == 1 && s[i..i + 1][0] == s[i];
      }
      CountSingleChar(s, c, i + 1);
    }
  }

  lemma {:induction false} OccurrencesAppend(s: string, d: char, c: char, i: nat)
    requires i <= |s|
    decreases |s| - i
    ensures Occurrences(s + [d], c, i) == Occurrences(s, c, i) + (if d == c then 1 else 0)
  {
    if i < |s| {
      assert (s + [d])[i] == s[i];
      OccurrencesAppend(s, d, c, i + 1);
    }
  }

  /** Counting newlines and finding the last one gives the same position as
      walking the text character by character. */
  lemma {:induction false} PositionIsWalk(s: string)
    ensures var lastNl := Paths.LastIndexOf(s, '\n');
            (Count(s, "\n"), |s| - (if lastNl != -1 then lastNl + 1 else 0)) == (Walk(s).0 as int, Walk(s).1 as int)
  {
    if s != [] {
      var init := s[..|s| - 1];
      var d := s[|s| - 1];
      assert s == init + [d];
      PositionIsWalk(init);
      CountSingleChar(s, '\n', 0);
      CountSingleChar(init, '\n', 0);
      OccurrencesAppend(init, d, '\n', 0);
    }
  }

  /** The highlighted position of offset `o` is the one reached by walking
      the text up to `o`. */
  lemma OffsetToPositionIsWalk(text: string, o: nat)
    requires o <= |text|
    ensures OffsetToPosition(text, o) == (Walk(text[..o]).0, Walk(text[..o]).1 as int)
  {
    PositionIsWalk(text[..o]);
  }

  // ---------------------------------------------------------------------
  // Count and Replace

  /** `count_occurrences` without Whole Word: `str.count`, on lower-cased
      text unless Match Case is on; `None` for an empty search text, where
      only a message is shown. */
  function CountOccurrences(fullText: string, text: string, matchCase: bool): Option<nat> {
    if text == [] then None else Some(Count(Searched(fullText, matchCase), Searched(text, matchCase)))
  }

  lemma {:induction false} SpansAll(content: string, n: nat, occ: seq<nat>)
    ensures |Spans(content, n, occ, false)| == |occ|
  {
    if occ != [] {
      SpansAll(content, n, occ[1..]);
    }
  }

  /** Count skips overlaps, so it is never more than the number of matches
      Find All reports, and it is zero exactly when Find All reports none. */
  lemma CountAtMostFindAll(fullText: string, text: string, matchCase: bool)
    requires text != []
    ensures CountOccurrences(fullText, text, matchCase).Some?
    ensures CountOccurrences(fullText, text, matchCase).value <= |FindAll(fullText, text, matchCase, false)|
    ensures CountOccurrences(fullText, text, matchCase).value == 0 <==> FindAll(fullText, text, matchCase, false) == []
  {
    var content := Searched(fullText, matchCase);
    var search := Searched(text, matchCase);
    CountAtMostOccurrences(content, search, 0);
    CountZeroIff(content, search, 0);
    SpansAll(content, |search|, OccurrencesFrom(content, search, 0));
  }

  /** What `replace` does before moving on to the next match. */
  datatype ReplaceStep = NoSearchText | FindNextOnly | ReplaceAndFindNext(replacement: string)

  /** The selection test: equal text, compared after lower-casing when Match
      Case is off. */
  predicate SelectionMatches(selected: string, text: string, matchCase: bool) {
    if matchCase then selected == text else Lower(selected) == Lower(text)
  }

  function Replace(hasSelection: bool, selected: string, text: string, replacement: string, matchCase: bool): ReplaceStep {
    if text == [] then NoSearchText
    else if hasSelection && SelectionMatches(selected, text, matchCase) then ReplaceAndFindNext(replacement)
    else FindNextOnly
  }

  /** The selection is replaced exactly when there is one and it equals the
      search text (up to case without Match Case); otherwise the text is left
      alone and only the next match is sought. */
  lemma ReplaceGuard(hasSelection: bool, selected: string, text: string, replacement: string, matchCase: bool)
    requires text != []
    ensures Replace(hasSelection, selected, text, replacement, matchCase).ReplaceAndFindNext? <==>
              hasSelection && (if matchCase then selected == text else Lower(selected) == Lower(text))
    ensures !Replace(hasSelection, selected, text, replacement, matchCase).ReplaceAndFindNext? ==>
              Replace(hasSelection, selected, text, replacement, matchCase) == FindNextOnly
    ensures Replace(hasSelection, selected, text, replacement, matchCase).ReplaceAndFindNext? ==>
              Replace(hasSelection, selected, text, replacement, matchCase).replacement == replacement && |selected| == |text|
  {
    if !matchCase && Lower(selected) == Lower(text) {
      assert |Lower(selected)| == |selected|;
    }
  }

  /** A selection that matches with Match Case on also matches with it off. */
  lemma ExactSelectionMatchesFolded(selected: string, text: string)
    requires SelectionMatches(selected, text, true)
    ensures SelectionMatches(selected, text, false)
  {
  }
}
