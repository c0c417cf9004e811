/**
 * The merge of a downloaded pattern list into the current one, from
 * `updatePatternsFromInternet` in MainActivity.kt, apart from the network:
 * the body text is an input. This module holds the specification functions
 * and their properties; the loop that performs the merge in place is
 * `PatternEditing.PatternsScreen.MergeCandidates`, called from
 * `PatternEditing.PatternsScreen.ApplyPatterns`.
 */
module PatternSync {
  import opened Text
  import opened BlockDecision

  // ---------------------------------------------------------------------------
  // From body text to candidate patterns

  /** A line yields a candidate when it is not blank, is not a `#` comment once trimmed, and is still not blank after trimming. */
  predicate KeepsLine(line: string) {
    !IsBlank(line) && !StartsWith(Trim(line), "#") && !IsBlank(Trim(line))
  }

  /** The filter-map-filter chain over the lines, element by element. */
  function FilterPatterns(lines: seq<string>): seq<string> {
    if lines == [] then []
    else (if KeepsLine(lines[0]) then [Trim(lines[0])] else []) + FilterPatterns(lines[1..])
  }

  /** `newPatterns`: the trimmed lines of the body that are neither blank nor comments. */
  function NewPatterns(patternsText: string): seq<string> {
    FilterPatterns(Lines(patternsText))
  }

  /** The shape of every entry the download can contribute: non-empty, no whitespace at either end, no `#` first. */
  predicate IsDownloadedPattern(p: string) {
    |p| > 0 && !IsWhitespace(p[0]) && !IsWhitespace(p[|p| - 1]) && p[0] != '#'
  }

  /** Such an entry is non-blank and is its own `trim()`. */
  lemma DownloadedPatternIsTrimmed(p: string)
    requires IsDownloadedPattern(p)
    ensures !IsBlank(p) && Trim(p) == p && !StartsWith(p, "#")
  {
    assert TrimStart(p) == p;
  }

  lemma {:induction false} FilterPatternsShape(lines: seq<string>)
    ensures forall i :: 0 <= i < |FilterPatterns(lines)| ==> IsDownloadedPattern(FilterPatterns(lines)[i])
    ensures |FilterPatterns(lines)| <= |lines|
  {
    if lines != [] {
      FilterPatternsShape(lines[1..]);
      var head := if KeepsLine(lines[0]) then [Trim(lines[0])] else [];
      if KeepsLine(lines[0]) {
        KeptLineIsPattern(lines[0]);
      }
      AllDownloadedConcat(head, FilterPatterns(lines[1..]));
    }
  }

  lemma AllDownloadedConcat(a: seq<string>, b: seq<string>)
    requires forall i :: 0 <= i < |a| ==> IsDownloadedPattern(a[i])
    requires forall i :: 0 <= i < |b| ==> IsDownloadedPattern(b[i])
    ensures forall i :: 0 <= i < |a + b| ==> IsDownloadedPattern((a + b)[i])
  {
    forall i | 0 <= i < |a + b| ensures IsDownloadedPattern((a + b)[i]) {
      if i >= |a| {
        assert (a + b)[i] == b[i - |a|];
      }
    }
  }

  lemma KeptLineIsPattern(line: string)
    requires KeepsLine(line)
    ensures IsDownloadedPattern(Trim(line))
  {
    TrimEmptyIffBlank(line);
  }

  /** Every candidate is trimmed, non-blank and no comment; there is at most one per line. */
  lemma NewPatternsShape(patternsText: string)
    ensures forall i :: 0 <= i < |NewPatterns(patternsText)| ==> IsDownloadedPattern(NewPatterns(patternsText)[i])
    ensures |NewPatterns(patternsText)| <= |Lines(patternsText)|
  {
    FilterPatternsShape(Lines(patternsText));
  }

  /** The trimming filter is exact: a line contributes iff it is neither blank nor a comment once trimmed. */
  lemma KeepsLineIff(line: string)
    ensures KeepsLine(line) <==> !IsBlank(line) && !StartsWith(Trim(line), "#")
  {
    TrimEmptyIffBlank(line);
    if !IsBlank(line) {
      assert Trim(line) != [];
      assert !IsWhitespace(Trim(line)[0]);
    }
  }

  // ---------------------------------------------------------------------------
  // The merge

  /** Some current entry, with its `user_` tag dropped, equals the candidate ignoring case. */
  predicate Known(entries: seq<string>, pattern: string) {
    exists j :: 0 <= j < |entries| && EqualsIgnoreCase(StripUserPrefix(entries[j]), pattern)
  }

  /** The list after the `for` loop: each candidate not yet known is appended, in order. */
  function MergeInto(current: seq<string>, patterns: seq<string>): seq<string>
    decreases |patterns|
  {
    if patterns == [] then current
    else MergeInto(if Known(current, patterns[0]) then current else current + [patterns[0]], patterns[1..])
  }

  /** Existing entries keep their positions; at most one entry is appended per candidate. */
  lemma {:induction false} MergeKeepsPrefix(current: seq<string>, patterns: seq<string>)
    ensures |current| <= |MergeInto(current, patterns)| <= |current| + |patterns|
    ensures MergeInto(current, patterns)[..|current|] == current
    decreases |patterns|
  {
    if patterns != [] {
      var next := if Known(current, patterns[0]) then current else current + [patterns[0]];
      MergeKeepsPrefix(next, patterns[1..]);
      assert MergeInto(current, patterns)[..|next|] == next;
      assert next[..|current|] == current;
    }
  }

  /** Each appended entry is a candidate that no earlier entry, `user_` stripped, equals ignoring case. */
  lemma {:induction false} MergeAppendsOnlyNew(current: seq<string>, patterns: seq<string>)
    ensures var r := MergeInto(current, patterns);
            forall k :: |current| <= k < |r| ==> r[k] in patterns && !Known(r[..k], r[k])
    decreases |patterns|
  {
    if patterns != [] {
      var next := if Known(current, patterns[0]) then current else current + [patterns[0]];
      MergeAppendsOnlyNew(next, patterns[1..]);
      MergeKeepsPrefix(next, patterns[1..]);
      var r := MergeInto(current, patterns);
      forall k | |current| <= k < |r| ensures r[k] in patterns && !Known(r[..k], r[k]) {
        if k < |next| {
          assert k == |current| && next == current + [patterns[0]];
          assert r[..k] == current;
          assert r[k] == next[k] == patterns[0];
        } else {
          assert r[k] in patterns[1..];
        }
      }
    }
  }

  /**
   * After the merge every candidate is in the list or known to it: either it
   * was appended, or an entry already matched it when its turn came.
   */
  lemma {:induction false} MergeCoversAll(current: seq<string>, patterns: seq<string>)
    ensures var r := MergeInto(current, patterns);
            forall i :: 0 <= i < |patterns| ==> patterns[i] in r || Known(r, patterns[i])
    decreases |patterns|
  {
    if patterns != [] {
      var next := if Known(current, patterns[0]) then current else current + [patterns[0]];
      MergeCoversAll(next, patterns[1..]);
      MergeKeepsPrefix(next, patterns[1..]);
      var r := MergeInto(current, patterns);
      assert patterns[0] in r || Known(r, patterns[0]) by {
        KnownGrows(next, r);
        if !Known(current, patterns[0]) {
          assert r[|current|] == next[|current|] == patterns[0];
        }
      }
      forall i | 0 < i < |patterns| ensures patterns[i] in r || Known(r, patterns[i]) {
        assert patterns[i] == patterns[1..][i - 1];
      }
    }
  }

  /** Without the `user_` tag on the candidates, every one of them is known after the merge. */
  lemma UntaggedCandidatesBecomeKnown(current: seq<string>, patterns: seq<string>)
    requires forall i :: 0 <= i < |patterns| ==> !StartsWith(patterns[i], UserPrefix)
    ensures forall i :: 0 <= i < |patterns| ==> Known(MergeInto(current, patterns), patterns[i])
  {
    var r := MergeInto(current, patterns);
    MergeCoversAll(current, patterns);
    forall i | 0 <= i < |patterns| ensures Known(r, patterns[i]) {
      if patterns[i] in r {
        var j :| 0 <= j < |r| && r[j] == patterns[i];
        assert EqualsIgnoreCase(StripUserPrefix(r[j]), patterns[i]);
      }
    }
  }

  lemma KnownGrows(a: seq<string>, b: seq<string>)
    requires |a| <= |b| && b[..|a|] == a
    ensures forall p :: Known(a, p) ==> Known(b, p)
  {
    forall p | Known(a, p) ensures Known(b, p) {
      var j :| 0 <= j < |a| && EqualsIgnoreCase(StripUserPrefix(a[j]), p);
      assert b[j] == a[j];
    }
  }

  /**
   * What the download appends is new and well-formed: every entry after the
   * old ones is a trimmed, non-blank, non-comment line of the body that no
   * earlier entry matched.
   */
  lemma MergedEntriesAreDownloaded(current: seq<string>, patternsText: string)
    ensures var r := MergeInto(current, NewPatterns(patternsText));
            forall k :: |current| <= k < |r| ==>
              && r[k] in NewPatterns(patternsText)
              && IsDownloadedPattern(r[k])
              && !Known(r[..k], r[k])
  {
    var candidates := NewPatterns(patternsText);
    MergeAppendsOnlyNew(current, candidates);
    NewPatternsShape(patternsText);
  }

  /**
   * A repeated downloaded line that itself starts with `user_` is appended
   * every time: the check strips the tag from the stored entry only.
   */
  lemma TaggedDownloadedLineRepeats()
    ensures MergeInto([], ["user_x", "user_x"]) == ["user_x", "user_x"]
  {
    assert !Known([], "user_x");
    assert StripUserPrefix("user_x") == "x";
    assert !Known(["user_x"], "user_x");
  }

  // ---------------------------------------------------------------------------
  // The status message

  datatype MergeStatus =
    | SomeAlreadyExisted(added: nat, skipped: nat)
    | AllAdded(added: nat)
    | AllAlreadyKnown
    | FileEmpty
    | NothingAdded

  /** The `when` over the two counters and the candidate list. */
  function MergeStatusOf(added: nat, skipped: nat, candidates: nat): MergeStatus {
    if added > 0 && skipped > 0 then SomeAlreadyExisted(added, skipped)
    else if added > 0 then AllAdded(added)
    else if skipped > 0 then AllAlreadyKnown
    else if candidates == 0 then FileEmpty
    else NothingAdded
  }

  /** When every candidate was either added or skipped, the final `else` is never taken. */
  lemma StatusNeverFallsThrough(added: nat, skipped: nat, candidates: nat)
    requires added + skipped == candidates
    ensures MergeStatusOf(added, skipped, candidates) != NothingAdded
    ensures added == 0 && skipped == 0 <==> MergeStatusOf(added, skipped, candidates) == FileEmpty
  {
  }

  function StatusText(status: MergeStatus): string {
    match status
    case SomeAlreadyExisted(a, s) =>
      "Добавлено " + NatToString(a) + " новых паттернов. " + NatToString(s) + " уже существовали."
    case AllAdded(a) => "Успешно добавлено " + NatToString(a) + " новых паттернов!"
    case AllAlreadyKnown => "Все паттерны уже есть в базе."
    case FileEmpty => "Файл с паттернами пуст."
    case NothingAdded => "Не удалось добавить новые паттерны."
  }
}
