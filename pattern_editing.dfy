/**
 * The pattern-management screen of MainActivity.kt: the list it shows, the
 * text field, and the preferences it writes back, with its three actions —
 * add a typed pattern, delete a user pattern, merge a downloaded list.
 */
module PatternEditing {
  import opened Text
  import opened BlockDecision
  import opened PatternStore
  import opened PatternSync

  // ---------------------------------------------------------------------------
  // Adding a typed pattern

  datatype AddOutcome = EmptyInput | AlreadyExists | PatternAdded

  /** The entry the add button builds from the text field. */
  function TaggedPattern(input: string): string {
    UserPrefix + Trim(input)
  }

  /** Which branch of the add button's handler runs. */
  function AddOutcomeOf(patterns: seq<string>, input: string): AddOutcome {
    if IsBlank(input) then EmptyInput
    else if TaggedPattern(input) in patterns then AlreadyExists
    else PatternAdded
  }

  /** The list after the add button. */
  function PatternsAfterAdd(patterns: seq<string>, input: string): seq<string> {
    if AddOutcomeOf(patterns, input) == PatternAdded then patterns + [TaggedPattern(input)] else patterns
  }

  function AddToast(outcome: AddOutcome): string {
    match outcome
    case EmptyInput => "Введите текст для блокировки"
    case AlreadyExists => "Такой паттерн уже существует"
    case PatternAdded => "Паттерн добавлен!"
  }

  predicate Distinct(s: seq<string>) {
    forall i, j :: 0 <= i < j < |s| ==> s[i] != s[j]
  }

  /** The add button never creates a repeated entry. */
  lemma AddKeepsDistinct(patterns: seq<string>, input: string)
    requires Distinct(patterns)
    ensures Distinct(PatternsAfterAdd(patterns, input))
  {
  }

  /**
   * The added entry is a user pattern, appears exactly once afterwards and
   * strips back to the trimmed input; nothing is added for blank input.
   */
  lemma AddedEntryShape(patterns: seq<string>, input: string)
    ensures AddOutcomeOf(patterns, input) == PatternAdded ==>
              var r := PatternsAfterAdd(patterns, input);
              && IsUserPattern(r[|r| - 1])
              && StripUserPrefix(r[|r| - 1]) == Trim(input)
              && multiset(r)[TaggedPattern(input)] == 1
    ensures AddOutcomeOf(patterns, input) != PatternAdded ==> PatternsAfterAdd(patterns, input) == patterns
    ensures IsBlank(input) ==> AddOutcomeOf(patterns, input) == EmptyInput
  {
    if AddOutcomeOf(patterns, input) == PatternAdded {
      var t := TaggedPattern(input);
      RemovePrefixOfTagged(UserPrefix, Trim(input));
      assert t[..|UserPrefix|] == UserPrefix;
      assert multiset(patterns)[t] == 0;
    }
  }

  /**
   * Once a non-blank input is in the list (added now or before), every call
   * whose cleaned number contains its trimmed text, ignoring case, is blocked,
   * whatever the settings.
   */
  lemma TypedPatternBlocks(patterns: seq<string>, input: string, number: string, name: Option<string>, settings: AppSettings)
    requires !IsBlank(input)
    requires ContainsIgnoreCase(CleanNumber(number), Trim(input))
    ensures ShouldBlockCall(number, name, PatternsAfterAdd(patterns, input), settings)
  {
    var r := PatternsAfterAdd(patterns, input);
    var t := TaggedPattern(input);
    assert t in r;
    var i :| 0 <= i < |r| && r[i] == t;
    RemovePrefixOfTagged(UserPrefix, Trim(input));
    TrimEmptyIffBlank(input);
    assert !IsBlank(Trim(input)) by {
      assert !IsWhitespace(Trim(input)[0]);
    }
    PatternHitOverridesSettings(number, name, r, settings, i);
  }

  // ---------------------------------------------------------------------------
  // Deleting a pattern

  datatype DeleteOutcome = Deleted | NotUserPattern

  /** `MutableList.remove(element)`: drops the first occurrence, if there is one. */
  function RemoveFirst(s: seq<string>, x: string): (r: seq<string>)
    ensures x in s ==> |r| == |s| - 1
    ensures x !in s ==> r == s
  {
    if s == [] then []
    else if s[0] == x then s[1..]
    else [s[0]] + RemoveFirst(s[1..], x)
  }

  /** The position of the first occurrence of `x`. */
  function FirstIndex(s: seq<string>, x: string): (k: nat)
    requires x in s
    ensures k < |s| && s[k] == x && x !in s[..k]
  {
    if s[0] == x then 0
    else
      var k := FirstIndex(s[1..], x);
      assert s[..k + 1] == [s[0]] + s[1..][..k];
      k + 1
  }

  /** It is the first occurrence that goes: the entries before it and after it stay, in order. */
  lemma {:induction false} RemoveFirstSplits(s: seq<string>, x: string)
    requires x in s
    ensures RemoveFirst(s, x) == s[..FirstIndex(s, x)] + s[FirstIndex(s, x) + 1..]
  {
    if s[0] != x {
      var k := FirstIndex(s[1..], x);
      RemoveFirstSplits(s[1..], x);
      SplitAfterHead(s, k);
    }
  }

  lemma SplitAfterHead(s: seq<string>, k: nat)
    requires k + 1 < |s|
    ensures [s[0]] + (s[1..][..k] + s[1..][k + 1..]) == s[..k + 1] + s[k + 2..]
  {
    assert s[..k + 1] == [s[0]] + s[1..][..k];
    assert s[k + 2..] == s[1..][k + 1..];
  }

  /** Exactly one copy of `x` goes, and every other entry keeps its multiplicity. */
  lemma {:induction false} RemoveFirstMultiset(s: seq<string>, x: string)
    requires x in s
    ensures multiset(RemoveFirst(s, x)) == multiset(s) - multiset{x}
  {
    assert s == [s[0]] + s[1..];
    if s[0] != x {
      RemoveFirstMultiset(s[1..], x);
    }
  }

  function DeleteOutcomeOf(pattern: string): DeleteOutcome {
    if IsUserPattern(pattern) then Deleted else NotUserPattern
  }

  function PatternsAfterDelete(patterns: seq<string>, pattern: string): seq<string> {
    if DeleteOutcomeOf(pattern) == Deleted then RemoveFirst(patterns, pattern) else patterns
  }

  function DeleteToast(outcome: DeleteOutcome): string {
    match outcome
    case Deleted => "Паттерн удален"
    case NotUserPattern => "Можно удалять только пользовательские паттерны"
  }

  /** Entries from the download survive every delete, with their multiplicity. */
  lemma DeleteKeepsDownloaded(patterns: seq<string>, pattern: string, p: string)
    requires !IsUserPattern(p)
    ensures multiset(PatternsAfterDelete(patterns, pattern))[p] == multiset(patterns)[p]
  {
    if IsUserPattern(pattern) && pattern in patterns {
      RemoveFirstMultiset(patterns, pattern);
    }
  }

  /** In a list without repetitions, deleting a user pattern removes it for good and keeps the list free of repetitions. */
  lemma {:induction false} DeleteFromDistinct(patterns: seq<string>, pattern: string)
    requires Distinct(patterns)
    ensures IsUserPattern(pattern) ==> pattern !in PatternsAfterDelete(patterns, pattern)
    ensures Distinct(PatternsAfterDelete(patterns, pattern))
  {
    if IsUserPattern(pattern) && pattern in patterns {
      RemoveFirstSplits(patterns, pattern);
      DistinctWithout(patterns, FirstIndex(patterns, pattern));
    }
  }

  lemma DistinctWithout(s: seq<string>, k: nat)
    requires Distinct(s) && k < |s|
    ensures s[k] !in s[..k] + s[k + 1..]
    ensures Distinct(s[..k] + s[k + 1..])
  {
    var r := s[..k] + s[k + 1..];
    assert forall i :: 0 <= i < |r| ==> r[i] == s[if i < k then i else i + 1];
  }

  // ---------------------------------------------------------------------------
  // Downloading

  /** What the download produced; the HTTP exchange itself is not modelled. */
  datatype Download =
    | NoNetwork
    | Failed(message: string)   // a non-200 answer or an exception, with the message the code builds for it
    | Body(patternsText: string)

  const NoNetworkMessage: string := "❌ Нет подключения к интернету"

  /** The merge loop's test whether a candidate is already known, entry by entry. */
  function AnyKnown(entries: seq<string>, pattern: string): (r: bool)
    ensures r <==> Known(entries, pattern)
  {
    if entries == [] then false
    else if EqualsIgnoreCase(StripUserPrefix(entries[0]), pattern) then true
    else
      var r := AnyKnown(entries[1..], pattern);
      assert Known(entries[1..], pattern) ==> Known(entries, pattern) by {
        if Known(entries[1..], pattern) {
          var j :| 0 <= j < |entries[1..]| && EqualsIgnoreCase(StripUserPrefix(entries[1..][j]), pattern);
          assert entries[j + 1] == entries[1..][j];
        }
      }
      assert Known(entries, pattern) ==> Known(entries[1..], pattern) by {
        if Known(entries, pattern) {
          var j :| 0 <= j < |entries| && EqualsIgnoreCase(StripUserPrefix(entries[j]), pattern);
          assert j != 0;
          assert entries[1..][j - 1] == entries[j];
        }
      }
      r
  }

  /** One turn of the merge loop. */
  lemma MergeStep(current: seq<string>, candidates: seq<string>, i: nat)
    requires i < |candidates|
    ensures MergeInto(current, candidates[i..])
            == MergeInto(if Known(current, candidates[i]) then current else current + [candidates[i]], candidates[i + 1..])
  {
    assert candidates[i..][1..] == candidates[i + 1..];
  }

  // ---------------------------------------------------------------------------
  // The screen

  /** Whatever order loading picks, its list meets what the screen's constructor asks of `loaded`. */
  lemma LoadedListOpensScreen(store: Store)
    ensures var loaded := LoadBlockedPatterns(store);
            && (forall p :: p in loaded <==> p in GetStringSet(store, UserPatternsKey) + GetStringSet(store, OtherPatternsKey))
            && Distinct(loaded)
  {
  }

  class PatternsScreen {
    var blockedPatterns: seq<string>
    var newPattern: string
    var prefs: Store
    var downloadCount: nat
    var statusMessage: string

    /**
     * The screen opens with the stored patterns loaded and an empty text
     * field. `loaded` is what `loadBlockedPatterns` returned: both keys'
     * patterns, each once, in whatever order the platform's sets give.
     */
    constructor (store: Store, loaded: seq<string>)
      requires forall p :: p in loaded <==> p in GetStringSet(store, UserPatternsKey) + GetStringSet(store, OtherPatternsKey)
      requires Distinct(loaded)
      ensures blockedPatterns == loaded && prefs == store
      ensures newPattern == "" && downloadCount == 0 && statusMessage == ""
    {
      blockedPatterns := loaded;
      newPattern := "";
      prefs := store;
      downloadCount := 0;
      statusMessage := "";
    }

    /** The text field's `onValueChange`. */
    method TypePattern(text: string)
      modifies this
      ensures newPattern == text
      ensures blockedPatterns == old(blockedPatterns) && prefs == old(prefs)
      ensures downloadCount == old(downloadCount) && statusMessage == old(statusMessage)
    {
      newPattern := text;
    }

    /** The add button: adds `user_` + the trimmed text once, saves, and clears the field. */
    method AddPattern() returns (outcome: AddOutcome, toast: string)
      modifies this
      ensures outcome == AddOutcomeOf(old(blockedPatterns), old(newPattern))
      ensures toast == AddToast(outcome)
      ensures blockedPatterns == PatternsAfterAdd(old(blockedPatterns), old(newPattern))
      ensures outcome == PatternAdded ==> prefs == SaveBlockedPatterns(old(prefs), blockedPatterns) && newPattern == ""
      ensures outcome != PatternAdded ==> prefs == old(prefs) && newPattern == old(newPattern)
      ensures downloadCount == old(downloadCount) && statusMessage == old(statusMessage)
    {
      if !IsBlank(newPattern) {
        var pattern := UserPrefix + Trim(newPattern);
        if pattern !in blockedPatterns {
          blockedPatterns := blockedPatterns + [pattern];
          prefs := SaveBlockedPatterns(prefs, blockedPatterns);
          newPattern := "";
          outcome := PatternAdded;
        } else {
          outcome := AlreadyExists;
        }
      } else {
        outcome := EmptyInput;
      }
      toast := AddToast(outcome);
    }

    /** A row's delete button: only user patterns go; the list is saved after a delete. */
    method DeletePattern(pattern: string) returns (outcome: DeleteOutcome, toast: string)
      modifies this
      ensures outcome == DeleteOutcomeOf(pattern) && toast == DeleteToast(outcome)
      ensures blockedPatterns == PatternsAfterDelete(old(blockedPatterns), pattern)
      ensures outcome == Deleted ==> prefs == SaveBlockedPatterns(old(prefs), blockedPatterns)
      ensures outcome == NotUserPattern ==> prefs == old(prefs)
      ensures newPattern == old(newPattern)
      ensures downloadCount == old(downloadCount) && statusMessage == old(statusMessage)
    {
      if StartsWith(pattern, UserPrefix) {
        blockedPatterns := RemoveFirst(blockedPatterns, pattern);
        prefs := SaveBlockedPatterns(prefs, blockedPatterns);
        outcome := Deleted;
      } else {
        outcome := NotUserPattern;
      }
      toast := DeleteToast(outcome);
    }

    /** The `for` loop of the merge: appends every candidate not yet known, counting both outcomes. */
    method MergeCandidates(candidates: seq<string>) returns (added: nat, skipped: nat)
      modifies this
      ensures blockedPatterns == MergeInto(old(blockedPatterns), candidates)
      ensures added == |blockedPatterns| - |old(blockedPatterns)| && added + skipped == |candidates|
      ensures prefs == old(prefs) && newPattern == old(newPattern)
      ensures downloadCount == old(downloadCount) && statusMessage == old(statusMessage)
    {
      added, skipped := 0, 0;
      var i := 0;
      while i < |candidates|
        invariant 0 <= i <= |candidates|
        invariant MergeInto(blockedPatterns, candidates[i..]) == MergeInto(old(blockedPatterns), candidates)
        invariant |blockedPatterns| == |old(blockedPatterns)| + added
        invariant added + skipped == i
        invariant prefs == old(prefs) && newPattern == old(newPattern)
        invariant downloadCount == old(downloadCount) && statusMessage == old(statusMessage)
      {
        var pattern := candidates[i];
        MergeStep(blockedPatterns, candidates, i);
        var known := AnyKnown(blockedPatterns, pattern);
        if !known {
          blockedPatterns := blockedPatterns + [pattern];
          added := added + 1;
        } else {
          skipped := skipped + 1;
        }
        i := i + 1;
      }
      assert candidates[i..] == [];
    }

    /**
     * The download button, from the moment the body (or the failure) is known:
     * every new candidate not yet in the list is appended in order, the list is
     * saved, and the counter and status message are shown.
     */
    method UpdatePatterns(download: Download) returns (count: nat, message: string)
      modifies this
      ensures download.Body? ==>
                var candidates := NewPatterns(download.patternsText);
                && blockedPatterns == MergeInto(old(blockedPatterns), candidates)
                && count == |blockedPatterns| - |old(blockedPatterns)| <= |candidates|
                && message == StatusText(MergeStatusOf(count, |candidates| - count, |candidates|))
                && prefs == SaveBlockedPatterns(old(prefs), blockedPatterns)
      ensures download.NoNetwork? ==> count == 0 && message == NoNetworkMessage
      ensures download.Failed? ==> count == 0 && message == download.message
      ensures !download.Body? ==> blockedPatterns == old(blockedPatterns) && prefs == old(prefs)
      ensures downloadCount == count && statusMessage == message
      ensures newPattern == old(newPattern)
    {
      match download {
        case NoNetwork =>
          count, message := 0, NoNetworkMessage;
        case Failed(m) =>
          count, message := 0, m;
        case Body(patternsText) =>
          count, message := ApplyPatterns(patternsText);
      }
      downloadCount := count;
      statusMessage := message;
    }

    /** The body of a successful download: merge its candidates, save the list and build the status line. */
    method ApplyPatterns(patternsText: string) returns (count: nat, message: string)
      modifies this
      ensures var candidates := NewPatterns(patternsText);
              && blockedPatterns == MergeInto(old(blockedPatterns), candidates)
              && count == |blockedPatterns| - |old(blockedPatterns)| <= |candidates|
              && message == StatusText(MergeStatusOf(count, |candidates| - count, |candidates|))
              && prefs == SaveBlockedPatterns(old(prefs), blockedPatterns)
      ensures newPattern == old(newPattern) && downloadCount == old(downloadCount) && statusMessage == old(statusMessage)
    {
      var candidates := NewPatterns(patternsText);
      var added, skipped := MergeCandidates(candidates);
      prefs := SaveBlockedPatterns(prefs, blockedPatterns);
      count := added;
      message := StatusText(MergeStatusOf(added, skipped, |candidates|));
    }
  }
}
