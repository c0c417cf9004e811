# Call blocker rules, modelled in Dafny

A model of the decision and bookkeeping rules of an Android call blocker
(package `com.example.blocktel1`). The app decides whether an incoming call
is blocked from a list of text patterns and three switches: allow contacts,
block hidden numbers, block international numbers. It keeps the
patterns in the app's preferences. The user can type patterns in, delete
them, or merge in a list downloaded from the project's repository. The app
shows the call history, with each row marked if the rules would block it.
Three entry points apply the rules: the screening service, the legacy
broadcast receiver, and the history screen.

Modules, one per part of the program:

- `Text`: the Kotlin string operations the rules use. These are `isBlank`, `trim`,
  `startsWith`/`removePrefix`, `lines()`, `contains`/`equals` with
  `ignoreCase`, `toIntOrNull`, decimal rendering and `Set.toList()`.
- `BlockDecision`: `shouldBlockCall` and `formatPhoneNumber` of
  MainActivity.kt.
- `PatternStore`: `saveBlockedPatterns` / `loadBlockedPatterns` over a
  store that maps keys to sets of strings.
- `PatternSync`: the candidate filter, the merge and the status message of
  `updatePatternsFromInternet`. These are specification functions with their properties.
- `PatternEditing`: the pattern screen as a class. Its fields are the list, the
  text field, the preferences, the counter and the status. Its methods are the
  add button, the delete button and the merge loop. Each method is proved
  against the functions of `PatternSync` and of this module.
- `CallHistory`: `loadCallHistory`. The cursor is replaced by its rows, and
  the loop takes at most `limit` of them.
- `CallReceiver`: CallReceiver.kt. It has its own simpler pattern test and its
  own preferences key, and dispatches on the phone state.
- `CallScreening`: CallScreeningService.kt. It combines STIR/SHAKEN with the
  shared decision and builds the response flags and the notification.

## Model

| member | source | states |
|---|---|---|
| BlockDecision.ShouldBlockCall | app/src/main/java/com/example/blocktel1/MainActivity.kt:206-255 | the app's decision for one call: a stripped pattern hit blocks; otherwise an allowed contact passes, then the hidden and international rules decide. Its properties are stated by `ShouldBlockCallCases`, `PatternHitOverridesSettings`, `ContactExemption`, `SettingsRulesDecide` and `PatternOrderIrrelevant` |
| BlockDecision.HasBlockingPattern | app/src/main/java/com/example/blocktel1/MainActivity.kt:214-233 | the pattern stage over the cleaned number and the name; characterised by `HasBlockingPatternIff` |
| BlockDecision.CleanNumber | app/src/main/java/com/example/blocktel1/MainActivity.kt:187 | the number with every character other than a digit or `+` removed, never longer than the input; `CleanNumberIsDial`, `CleanNumberOfDialChars`, `CleanNumberAppend` and `CleanNumberOfSeparators` state what it keeps and drops |
| BlockDecision.FormatPhoneNumber | app/src/main/java/com/example/blocktel1/MainActivity.kt:186-204 | the history's display form; characterised by `FormatPhoneNumberShape`, `CleanDisplayGroups` and `FormatPhoneNumberIdempotent` |
| BlockDecision.ShouldBlockCallCases | app/src/main/java/com/example/blocktel1/MainActivity.kt:206-255 | a call is blocked iff some stored pattern, stripped of one `user_`, hits; or, when the contact exemption does not apply, the hidden or the international rule fires |
| BlockDecision.HasBlockingPatternIff | app/src/main/java/com/example/blocktel1/MainActivity.kt:214-233 | the pattern stage fires iff some non-blank stripped pattern occurs, ignoring case, in the cleaned number or in the name |
| BlockDecision.AnyPatternHitsIff | app/src/main/java/com/example/blocktel1/MainActivity.kt:223-228 | `any` over the stripped patterns is the existential over their positions |
| BlockDecision.PatternHitOverridesSettings | app/src/main/java/com/example/blocktel1/MainActivity.kt:214-233 | one hitting pattern blocks whatever the settings and the contact status |
| BlockDecision.ContactExemption | app/src/main/java/com/example/blocktel1/MainActivity.kt:236-242 | with no pattern hit, a contact is never blocked when contacts are allowed, even if the hidden or international rule would fire |
| BlockDecision.SettingsRulesDecide | app/src/main/java/com/example/blocktel1/MainActivity.kt:244-254 | with no hit and no exemption, blocked iff the hidden-number or the international rule fires; otherwise allowed |
| BlockDecision.BlankPatternsNeverHit | app/src/main/java/com/example/blocktel1/MainActivity.kt:224 | blank or whitespace-only patterns never cause a hit |
| BlockDecision.UserTagIsTransparent | app/src/main/java/com/example/blocktel1/MainActivity.kt:219-221 | a pattern and its `user_`-tagged form decide every call the same way |
| BlockDecision.PatternOrderIrrelevant | app/src/main/java/com/example/blocktel1/MainActivity.kt:206-255 | two pattern lists with the same elements decide every call the same way |
| BlockDecision.NoNameNoExemption | app/src/main/java/com/example/blocktel1/MainActivity.kt:236-242 | without a name the contact exemption never applies |
| BlockDecision.CleanNumberOfDialChars | app/src/main/java/com/example/blocktel1/MainActivity.kt:214 | cleaning leaves a string of digits and `+` unchanged |
| BlockDecision.CleanNumberIsDial | app/src/main/java/com/example/blocktel1/MainActivity.kt:214 | the cleaned number holds digits and `+` only |
| BlockDecision.CleanNumberAppend | app/src/main/java/com/example/blocktel1/MainActivity.kt:187 | cleaning distributes over concatenation |
| BlockDecision.CleanNumberOfSeparators | app/src/main/java/com/example/blocktel1/MainActivity.kt:187 | a string with no digit and no `+` cleans to the empty string |
| BlockDecision.FormatPhoneNumberShape | app/src/main/java/com/example/blocktel1/MainActivity.kt:186-204 | short cleaned numbers come back unchanged; from ten characters on, all three branches give `+7 ddd ddd-dd-dd` over the last ten |
| BlockDecision.DisplayGroupsShape | app/src/main/java/com/example/blocktel1/MainActivity.kt:192 | the display form has 16 characters, laid out character by character |
| BlockDecision.CleanDisplayGroups | app/src/main/java/com/example/blocktel1/MainActivity.kt:187-192 | cleaning a display form gives back `+7` followed by the ten characters |
| BlockDecision.FormatPhoneNumberIdempotent | app/src/main/java/com/example/blocktel1/MainActivity.kt:186-204 | formatting a formatted number changes nothing |
| PatternStore.SaveBlockedPatterns | app/src/main/java/com/example/blocktel1/MainActivity.kt:165-175 | both keys written from the list; what lands under each key is stated by `SaveBlockedPatternsContents`, and `SaveLoadRoundTrip` pairs it with loading |
| PatternStore.SaveBlockedPatternsContents | app/src/main/java/com/example/blocktel1/MainActivity.kt:165-175 | tagged patterns go under `user_patterns`, all others under `other_patterns`, and no other key changes |
| PatternStore.LoadBlockedPatterns | app/src/main/java/com/example/blocktel1/MainActivity.kt:177-183 | the loaded list holds each pattern of either key exactly once |
| PatternStore.SavedSetsAreDisjoint | app/src/main/java/com/example/blocktel1/MainActivity.kt:167-173 | the two saved sets share no pattern |
| PatternStore.SaveLoadRoundTrip | app/src/main/java/com/example/blocktel1/MainActivity.kt:165-183 | save then load gives back the same patterns, with duplicates collapsed and the order not kept |
| PatternStore.DistinctNoLonger | app/src/main/java/com/example/blocktel1/MainActivity.kt:182 | a list without repetitions is no longer than any list holding all its entries |
| PatternStore.DecisionSurvivesSaveLoad | app/src/main/java/com/example/blocktel1/MainActivity.kt:165-183 | deciding over the loaded list is deciding over the saved one |
| PatternSync.FilterPatterns | app/src/main/java/com/example/blocktel1/MainActivity.kt:430-435 | the filter, trim and filter chain over the lines; `FilterPatternsShape` states that every kept entry is candidate-shaped and that there are no more entries than lines |
| PatternSync.NewPatterns | app/src/main/java/com/example/blocktel1/MainActivity.kt:427-435 | the candidates of a body; characterised by `NewPatternsShape` and `KeepsLineIff` |
| PatternSync.MergeInto | app/src/main/java/com/example/blocktel1/MainActivity.kt:440-453 | the list after the merge loop; characterised by `MergeKeepsPrefix`, `MergeAppendsOnlyNew`, `MergeCoversAll` and `MergedEntriesAreDownloaded` |
| PatternSync.MergeStatusOf | app/src/main/java/com/example/blocktel1/MainActivity.kt:458-469 | which status line the counts select, in the order of the `when` branches; `StatusNeverFallsThrough` shows that the last branch is unreachable |
| PatternSync.StatusText | app/src/main/java/com/example/blocktel1/MainActivity.kt:458-469 | the status texts of the five branches |
| PatternSync.NewPatternsShape | app/src/main/java/com/example/blocktel1/MainActivity.kt:427-435 | every candidate is non-blank, has no whitespace at either end and does not start with `#`; there is at most one per line |
| PatternSync.KeepsLineIff | app/src/main/java/com/example/blocktel1/MainActivity.kt:430-435 | the second blank filter removes nothing: a line is kept iff it is non-blank and not a comment once trimmed |
| PatternSync.DownloadedPatternIsTrimmed | app/src/main/java/com/example/blocktel1/MainActivity.kt:434 | a candidate is its own `trim()` |
| PatternSync.MergeKeepsPrefix | app/src/main/java/com/example/blocktel1/MainActivity.kt:440-453 | existing entries keep their positions and at most one entry is appended per candidate |
| PatternSync.MergeAppendsOnlyNew | app/src/main/java/com/example/blocktel1/MainActivity.kt:440-453 | each appended entry is a candidate that no earlier entry matched, those appended in the same run included |
| PatternSync.MergedEntriesAreDownloaded | app/src/main/java/com/example/blocktel1/MainActivity.kt:427-453 | everything the download appends is a trimmed, non-blank, non-comment line of the body that was new when appended |
| PatternSync.MergeCoversAll | app/src/main/java/com/example/blocktel1/MainActivity.kt:440-453 | after the merge every candidate is in the list or matched by an entry of it |
| PatternSync.UntaggedCandidatesBecomeKnown | app/src/main/java/com/example/blocktel1/MainActivity.kt:440-453 | candidates without the `user_` tag are all matched after the merge |
| PatternSync.TaggedDownloadedLineRepeats | app/src/main/java/com/example/blocktel1/MainActivity.kt:441-444 | a repeated downloaded line starting with `user_` is appended twice, because only the stored side is stripped |
| PatternSync.StatusNeverFallsThrough | app/src/main/java/com/example/blocktel1/MainActivity.kt:458-469 | when every candidate was added or skipped, the last branch is unreachable, and "file empty" is chosen iff both counters are 0 |
| PatternEditing.PatternsAfterAdd | app/src/main/java/com/example/blocktel1/MainActivity.kt:743-757 | the list after the add button; characterised by `AddKeepsDistinct`, `AddedEntryShape` and `TypedPatternBlocks` |
| PatternEditing.RemoveFirst | app/src/main/java/com/example/blocktel1/MainActivity.kt:961 | `MutableList.remove`: one entry shorter when the element is present, unchanged otherwise; `RemoveFirstSplits` and `RemoveFirstMultiset` say which entry goes |
| PatternEditing.PatternsAfterDelete | app/src/main/java/com/example/blocktel1/MainActivity.kt:959-966 | the list after a row's delete button; characterised by `DeleteKeepsDownloaded` and `DeleteFromDistinct` |
| PatternEditing.LoadedListOpensScreen | app/src/main/java/com/example/blocktel1/MainActivity.kt:177-183 | whatever order loading picks, the loaded list meets what the screen's constructor asks of it |
| PatternEditing.AddKeepsDistinct | app/src/main/java/com/example/blocktel1/MainActivity.kt:743-757 | the add button never creates a repeated entry |
| PatternEditing.AddedEntryShape | app/src/main/java/com/example/blocktel1/MainActivity.kt:743-757 | an add appends `user_` + the trimmed input exactly once, it strips back to the trimmed input, and blank input adds nothing |
| PatternEditing.TypedPatternBlocks | app/src/main/java/com/example/blocktel1/MainActivity.kt:743-757 | after adding a non-blank input, every call whose cleaned number contains its trimmed text is blocked |
| PatternEditing.RemoveFirstSplits | app/src/main/java/com/example/blocktel1/MainActivity.kt:961 | `remove` drops the first occurrence and keeps the entries before and after it in order |
| PatternEditing.RemoveFirstMultiset | app/src/main/java/com/example/blocktel1/MainActivity.kt:961 | exactly one copy of the removed entry goes, and every other entry keeps its count |
| PatternEditing.DeleteKeepsDownloaded | app/src/main/java/com/example/blocktel1/MainActivity.kt:959-966 | downloaded entries survive every delete, with their counts |
| PatternEditing.DeleteFromDistinct | app/src/main/java/com/example/blocktel1/MainActivity.kt:959-966 | in a list without repetitions, a deleted user pattern is gone and the list stays without repetitions |
| PatternEditing.AnyKnown | app/src/main/java/com/example/blocktel1/MainActivity.kt:442-445 | the `any` of the merge loop holds iff some entry, stripped of `user_`, equals the candidate ignoring case |
| PatternEditing.PatternsScreen.constructor | app/src/main/java/com/example/blocktel1/MainActivity.kt:691-701 | the screen opens on any list that holds each stored pattern of either key once, in any order, with an empty field, the counter at 0 and no status |
| PatternEditing.PatternsScreen.TypePattern | app/src/main/java/com/example/blocktel1/MainActivity.kt:733-735 | typing replaces the field's text and nothing else |
| PatternEditing.PatternsScreen.AddPattern | app/src/main/java/com/example/blocktel1/MainActivity.kt:743-757 | the branch taken and the new list are those of the add specification; on success the list is saved and the field cleared, otherwise the preferences and the field are unchanged |
| PatternEditing.PatternsScreen.DeletePattern | app/src/main/java/com/example/blocktel1/MainActivity.kt:959-966 | only a user pattern is removed (its first occurrence), and then the list is saved; otherwise nothing changes |
| PatternEditing.PatternsScreen.UpdatePatterns | app/src/main/java/com/example/blocktel1/MainActivity.kt:375-469 | on a body, the list becomes the merge of its candidates and the count is the number of appended entries; the message is the status text and the list is saved. Without a network or on a failure nothing changes |
| PatternEditing.PatternsScreen.ApplyPatterns | app/src/main/java/com/example/blocktel1/MainActivity.kt:427-469 | a body's candidates are merged into the list, the count is the number of entries appended, the message is the status text for that count, and the merged list is saved |
| PatternEditing.PatternsScreen.MergeCandidates | app/src/main/java/com/example/blocktel1/MainActivity.kt:439-453 | the loop leaves the list equal to the merge of the candidates into it, counts the appended entries as added and the others as skipped, and changes nothing else |
| PatternEditing.MergeStep | app/src/main/java/com/example/blocktel1/MainActivity.kt:440-453 | one turn of the loop appends its candidate exactly when no entry matches it, and the rest of the merge goes on from there |
| CallHistory.ShapeRow | app/src/main/java/com/example/blocktel1/MainActivity.kt:290-342 | one cursor row as the history shows it: the formatted number, the decision on that formatted number, the type label and the duration text; described by `UnknownNumberShownEmpty`, `FormattedNumberHiddenIffEmpty` and `AnnotationDiffersFromLiveDecision` |
| CallHistory.CallTypeLabel | app/src/main/java/com/example/blocktel1/MainActivity.kt:303-311 | the label of a call type; `CallTypeLabelsDistinct` states that the six codes get six different labels |
| CallHistory.DurationText | app/src/main/java/com/example/blocktel1/MainActivity.kt:327-331 | the duration column as `m:ss`; characterised by `DurationTextReadsBack` |
| CallHistory.LoadCallHistory | app/src/main/java/com/example/blocktel1/MainActivity.kt:258-353 | without permission or cursor the list is empty; otherwise it holds the first `limit` rows (none for `limit <= 0`), each shaped, in cursor order |
| CallHistory.RowsTaken | app/src/main/java/com/example/blocktel1/MainActivity.kt:289-290 | the loop takes no rows for a non-positive limit, otherwise the smaller of the limit and the rows available |
| CallHistory.Pad2 | app/src/main/java/com/example/blocktel1/MainActivity.kt:328 | `%02d` gives two digits that read back as the number |
| CallHistory.DurationTextReadsBack | app/src/main/java/com/example/blocktel1/MainActivity.kt:326-331 | the text is minutes without a leading zero, a colon and two-digit seconds below 60 that add up to the positive seconds count; it is exactly `0:00` for a missing, unparsable or non-positive value |
| CallHistory.CallTypeLabelsDistinct | app/src/main/java/com/example/blocktel1/MainActivity.kt:304-312 | the six known types get six different labels, and every other code gets the unknown label |
| CallHistory.UnknownNumberShownEmpty | app/src/main/java/com/example/blocktel1/MainActivity.kt:291-324 | a row without a number shows an empty number; it counts as hidden, so it is marked when hidden numbers are blocked, unless the contact exemption applies: a name other than the empty shown number with contacts allowed |
| CallHistory.FormattedNumberHiddenIffEmpty | app/src/main/java/com/example/blocktel1/MainActivity.kt:314-324 | the history's hidden-number test fires iff the raw number has no digit and no `+` |
| CallHistory.AnnotationDiffersFromLiveDecision | app/src/main/java/com/example/blocktel1/MainActivity.kt:314-324 | because the mark is computed on the formatted number, `+12025550123` is blocked when called with international blocking on, yet not marked in the history |
| CallHistory.DefaultSettingsMarkNothing | app/src/main/java/com/example/blocktel1/MainActivity.kt:314-324 | with no patterns and the default settings, no row is marked |
| CallReceiver.ReceiverShouldBlock | app/src/main/java/com/example/blocktel1/CallReceiver.kt:92-101 | the receiver's own test on the raw number and the unstripped patterns; characterised by `ReceiverShouldBlockIff`, and compared with the app's decision by `ReceiverAgreesOnPlainInput`, `ReceiverMissesTaggedPattern` and `ReceiverMissesSeparatedNumber` |
| CallReceiver.OnReceive | app/src/main/java/com/example/blocktel1/CallReceiver.kt:15-62 | what one broadcast leads to; characterised by `OnReceiveBlocksOnlyRinging` and `RingingToastShape` |
| CallReceiver.ReceiverShouldBlockIff | app/src/main/java/com/example/blocktel1/CallReceiver.kt:92-101 | the receiver blocks iff some non-blank stored pattern occurs, ignoring case, in the raw number or the name; for an empty list it never blocks |
| CallReceiver.ReceiverAgreesOnPlainInput | app/src/main/java/com/example/blocktel1/CallReceiver.kt:92-101 | on a number of digits and `+` only, with untagged patterns, the receiver's test equals the app's pattern stage |
| CallReceiver.ReceiverMissesTaggedPattern | app/src/main/java/com/example/blocktel1/CallReceiver.kt:95-99 | a stored `user_123` blocks `123` in the app but not in the receiver |
| CallReceiver.ReceiverMissesSeparatedNumber | app/src/main/java/com/example/blocktel1/CallReceiver.kt:95-99 | the pattern `1234` blocks `12-34` in the app but not in the receiver |
| CallReceiver.OnReceiveBlocksOnlyRinging | app/src/main/java/com/example/blocktel1/CallReceiver.kt:15-62 | an attempt to end the call is made iff the state is RINGING, a number is present and the receiver's test holds; OFFHOOK and IDLE only log, other states do nothing |
| CallReceiver.RingingToastShape | app/src/main/java/com/example/blocktel1/CallReceiver.kt:41-45 | the toast starts with the blocking word iff the call is blocked, and ends with the contact name or else the number |
| CallReceiver.ReceiverPatterns | app/src/main/java/com/example/blocktel1/CallReceiver.kt:86-90 | the receiver's list holds exactly the strings under `blocked_patterns` |
| CallReceiver.ReceiverNeverBlocksOverAppStore | app/src/main/java/com/example/blocktel1/CallReceiver.kt:86-90 | over preferences written only by the app the receiver's list is empty, so it never tries to end a call |
| CallScreening.OnScreenCall | app/src/main/java/com/example/blocktel1/CallScreeningService.kt:27-64 | the service's response and notification for one call; characterised by `ScreenDecision`, `NotificationReason` and `NoSpoofingBeforeQ` |
| CallScreening.GetStirShakenStatus | app/src/main/java/com/example/blocktel1/CallScreeningService.kt:66-77 | the platform's verification status from Q on, and not verified before Q or on an exception; used by `ScreenDecision` and `NoSpoofingBeforeQ` |
| CallScreening.ShouldBlockByPatterns | app/src/main/java/com/example/blocktel1/CallScreeningService.kt:79-102 | the shared decision with no caller name, and `false` when the preferences cannot be read; described by `PrefsFailureOnlySpoofingBlocks`, `MissingHandleIsHidden`, `ContactSettingIrrelevant` and `ScreeningSeesSavedPatterns` |
| CallScreening.ScreenDecision | app/src/main/java/com/example/blocktel1/CallScreeningService.kt:27-64 | the call is refused iff verification failed (from Q on) or the rules block it; skip-log and skip-notification follow the decision from Q on only; the notification exists iff the call is refused and shows the number |
| CallScreening.NotificationReason | app/src/main/java/com/example/blocktel1/CallScreeningService.kt:41-44 | the notification names STIR/SHAKEN iff verification failed |
| CallScreening.NoSpoofingBeforeQ | app/src/main/java/com/example/blocktel1/CallScreeningService.kt:66-77 | before Q only the rules can refuse a call |
| CallScreening.PrefsFailureOnlySpoofingBlocks | app/src/main/java/com/example/blocktel1/CallScreeningService.kt:79-102 | when the preferences cannot be read, only a failed verification refuses the call |
| CallScreening.MissingHandleIsHidden | app/src/main/java/com/example/blocktel1/CallScreeningService.kt:27-38 | a call without a handle is screened as the empty number, which the rules block iff hidden numbers are blocked |
| CallScreening.ContactSettingIrrelevant | app/src/main/java/com/example/blocktel1/CallScreeningService.kt:92-98 | the allow-contacts switch never changes the service's decision |
| CallScreening.ScreeningSeesSavedPatterns | app/src/main/java/com/example/blocktel1/CallScreeningService.kt:90-98 | the service decides over the patterns the app saved, in whatever order loading returns them |
| Text.Trim | app/src/main/java/com/example/blocktel1/MainActivity.kt:434 | `trim()`; characterised by `TrimStartSpec`, `TrimEndSpec`, `TrimEmptyIffBlank` and `TrimIdempotent` |
| Text.Lines | app/src/main/java/com/example/blocktel1/MainActivity.kt:427 | `lines()`; characterised by `LinesHaveNoBreaks` and `LinesJoinRoundTrip` |
| Text.ContainsIgnoreCase | app/src/main/java/com/example/blocktel1/MainActivity.kt:225 | `contains(pattern, ignoreCase = true)`: some position where the pattern matches under the case fold; `EmptyTextContainsOnlyEmpty` covers the empty text |
| Text.ParseInt | app/src/main/java/com/example/blocktel1/MainActivity.kt:327 | `toIntOrNull()`: an optional sign and at least one digit, within the 32-bit range; `ParseIntOfNatToString` shows that it reads back each rendering |
| Text.RemovePrefix | app/src/main/java/com/example/blocktel1/MainActivity.kt:220 | `removePrefix` drops exactly one leading occurrence, if present |
| Text.TrimStartSpec | app/src/main/java/com/example/blocktel1/MainActivity.kt:434 | what the leading trim keeps is a suffix of the string that does not start with whitespace, and what it drops is blank |
| Text.TrimEndSpec | app/src/main/java/com/example/blocktel1/MainActivity.kt:434 | what the trailing trim keeps is a prefix of the string that does not end with whitespace, and what it drops is blank |
| Text.TrimEmptyIffBlank | app/src/main/java/com/example/blocktel1/MainActivity.kt:430-435 | `trim()` is empty iff the string is blank, and otherwise neither end is whitespace |
| Text.TrimIdempotent | app/src/main/java/com/example/blocktel1/MainActivity.kt:434 | trimming twice is trimming once |
| Text.LinesHaveNoBreaks | app/src/main/java/com/example/blocktel1/MainActivity.kt:427 | no line produced by `lines()` holds a line break |
| Text.LinesJoinRoundTrip | app/src/main/java/com/example/blocktel1/MainActivity.kt:427 | on text without carriage returns, joining the lines with `\n` gives the text back |
| Text.EmptyTextContainsOnlyEmpty | app/src/main/java/com/example/blocktel1/MainActivity.kt:225 | only the empty pattern occurs in the empty text |
| Text.NatToString | app/src/main/java/com/example/blocktel1/MainActivity.kt:328 | the rendering is non-empty decimal digits, reads back as the number and has no leading zero |
| Text.ParseIntOfNatToString | app/src/main/java/com/example/blocktel1/MainActivity.kt:327 | `toIntOrNull` reads back every rendered value of the `Int` range |
| Text.ToList | app/src/main/java/com/example/blocktel1/MainActivity.kt:182 | `toList()` of a set lists each element exactly once |

## Left out

- Everything the rules do not depend on is left out. This covers the HTTP exchange, the connectivity check, timeouts, the mapping of exceptions to messages, coroutines and dispatchers. `UpdatePatterns` takes the outcome of the download as input, and a failure carries the message the code would show.
- The contact lookup and the call-log cursor are replaced by their results, and the call-log query's sort order by the order of the given rows. The exceptions that `loadCallHistory` catches are not modelled.
- Ending the call (`blockCall`: `TelecomManager.endCall`, media-button broadcasts, `Thread.sleep`) is reported as `blockAttempted`, not performed.
- Toasts, log lines, notifications and the notification channel are left out. Their texts are modelled where the code picks among them; the notification is returned as a value.
- The Compose UI, the settings screen, the permission flow and `CallBlockingService.kt` are not part of this model. The pattern counts shown on the screen are not modelled either.
- Preferences persistence is not modelled: the store is a map from key to set, and `apply()` timing is not captured. Settings are passed in already read, with their defaults.
- `SimpleDateFormat` is left out: a positive date is kept as milliseconds, and any other date is shown as unknown.
- Case-insensitive matching uses an ASCII-only case fold. Kotlin folds all of Unicode, so two non-ASCII letters that differ only in case do not match in the model. It also misses the pairs of an ASCII letter with a non-ASCII one that Kotlin matches, such as `k` with the Kelvin sign U+212A or `i` with the dotless `ı` U+0131.
- Text.ParseInt: accepts ASCII digits only. `toIntOrNull` and `toInt` also accept the other Unicode decimal digits, which a call-log duration column does not hold.
- `Char.isWhitespace` is the JVM's set, listed explicitly. Strings are sequences of code points, not UTF-16 units. `String.format("%02d")` assumes a locale with ASCII digits.
- Text.ToList: the set's iteration order is left unspecified (ghost, chosen by the verifier). `PatternStore.LoadBlockedPatterns` and `CallReceiver.ReceiverPatterns` inherit this, and every lemma that uses them holds for any order.
- PatternEditing.PatternsScreen.UpdatePatterns: runs the merge as one uninterrupted step. Concurrent edits of the list while the download runs on the IO dispatcher are not modelled.
- PatternEditing.PatternsScreen.DeletePattern: accepts any string; it is only called from a row, where the pattern is in the list.
- CallScreening.OnScreenCall: an exception while building or posting the notification is not modelled, and the notification id taken from the clock is left out.
