/**
 * The shared blocking decision `shouldBlockCall` and the display formatter
 * `formatPhoneNumber` of MainActivity.kt.
 *
 * The decision is a fixed-priority chain: a pattern hit blocks; otherwise a
 * contact is exempt when contacts are allowed; otherwise the hidden-number
 * rule, then the international rule; otherwise the call is allowed.
 */
module BlockDecision {
  import opened Text

  /** The user's settings (`AppSettings`). */
  datatype AppSettings = AppSettings(
    callLogLimit: int,
    allowContacts: bool,
    blockHiddenNumbers: bool,
    blockInternational: bool)

  const DefaultSettings: AppSettings := AppSettings(20, false, false, false)

  /** The tag that marks a pattern the user typed in, as opposed to a downloaded one. */
  const UserPrefix: string := "user_"

  // ---------------------------------------------------------------------------
  // Number cleaning: `replace(Regex("[^0-9+]"), "")`

  predicate IsDialChar(c: char) {
    IsAsciiDigit(c) || c == '+'
  }

  predicate AllDialChars(s: string) {
    forall i :: 0 <= i < |s| ==> IsDialChar(s[i])
  }

  /** Keeps the digits and `+` of `number`, in order, and drops every other character. */
  function CleanNumber(number: string): (r: string)
    ensures |r| <= |number|
  {
    if number == [] then []
    else (if IsDialChar(number[0]) then [number[0]] else []) + CleanNumber(number[1..])
  }

  /** Only digits and `+` survive cleaning. */
  lemma {:induction false} CleanNumberIsDial(number: string)
    ensures AllDialChars(CleanNumber(number))
  {
    if number != [] {
      CleanNumberIsDial(number[1..]);
    }
  }

  /** A number made of digits and `+` only is already clean. */
  lemma {:induction false} CleanNumberOfDialChars(s: string)
    requires AllDialChars(s)
    ensures CleanNumber(s) == s
  {
    if s != [] {
      CleanNumberOfDialChars(s[1..]);
      assert s == [s[0]] + s[1..];
    }
  }

  /** Cleaning works character by character, so it distributes over concatenation. */
  lemma {:induction false} CleanNumberAppend(a: string, b: string)
    ensures CleanNumber(a + b) == CleanNumber(a) + CleanNumber(b)
  {
    if a == [] {
      assert a + b == b;
    } else {
      var head := if IsDialChar(a[0]) then [a[0]] else [];
      assert (a + b)[0] == a[0];
      assert (a + b)[1..] == a[1..] + b;
      CleanNumberAppend(a[1..], b);
      calc {
        CleanNumber(a + b);
        head + CleanNumber(a[1..] + b);
        head + (CleanNumber(a[1..]) + CleanNumber(b));
        (head + CleanNumber(a[1..])) + CleanNumber(b);
        CleanNumber(a) + CleanNumber(b);
      }
    }
  }

  /** A string with no digit and no `+` cleans to nothing. */
  lemma {:induction false} CleanNumberOfSeparators(s: string)
    requires forall i :: 0 <= i < |s| ==> !IsDialChar(s[i])
    ensures CleanNumber(s) == []
  {
    if s != [] {
      CleanNumberOfSeparators(s[1..]);
    }
  }

  // ---------------------------------------------------------------------------
  // Pattern matching

  /** A stored pattern with one leading `user_` tag dropped, if it has one. */
  function StripUserPrefix(pattern: string): string {
    RemovePrefix(pattern, UserPrefix)
  }

  /** `blockedPatterns.map { ... }`: every pattern with one leading `user_` removed. */
  function CheckPatterns(patterns: seq<string>): (r: seq<string>)
    ensures |r| == |patterns|
  {
    seq(|patterns|, i requires 0 <= i < |patterns| => StripUserPrefix(patterns[i]))
  }

  /** One (already stripped) pattern hits the cleaned number or the name. */
  predicate PatternHits(cleanNumber: string, name: Option<string>, pattern: string) {
    !IsBlank(pattern)
    && (ContainsIgnoreCase(cleanNumber, pattern)
        || (name.Some? && ContainsIgnoreCase(name.value, pattern)))
  }

  /** Some stripped pattern hits the call. */
  predicate AnyPatternHits(cleanNumber: string, name: Option<string>, patterns: seq<string>) {
    |patterns| > 0
    && (PatternHits(cleanNumber, name, patterns[0]) || AnyPatternHits(cleanNumber, name, patterns[1..]))
  }

  /** The reference definition of a pattern hit: some stored pattern, stripped of `user_`, hits. */
  ghost predicate SomePatternHits(number: string, name: Option<string>, patterns: seq<string>) {
    exists i :: 0 <= i < |patterns| && PatternHits(CleanNumber(number), name, StripUserPrefix(patterns[i]))
  }

  lemma {:induction false} AnyPatternHitsIff(cleanNumber: string, name: Option<string>, patterns: seq<string>)
    ensures AnyPatternHits(cleanNumber, name, patterns)
            <==> exists i :: 0 <= i < |patterns| && PatternHits(cleanNumber, name, patterns[i])
  {
    if patterns != [] {
      var tail := patterns[1..];
      AnyPatternHitsIff(cleanNumber, name, tail);
      if exists i :: 0 <= i < |patterns| && PatternHits(cleanNumber, name, patterns[i]) {
        var i :| 0 <= i < |patterns| && PatternHits(cleanNumber, name, patterns[i]);
        if i > 0 {
          assert tail[i - 1] == patterns[i];
        }
      }
      if exists j :: 0 <= j < |tail| && PatternHits(cleanNumber, name, tail[j]) {
        var j :| 0 <= j < |tail| && PatternHits(cleanNumber, name, tail[j]);
        assert patterns[j + 1] == tail[j];
      }
    }
  }

  /** The pattern stage of `shouldBlockCall`, guarded by `blockedPatterns.isNotEmpty()`. */
  predicate HasBlockingPattern(cleanNumber: string, name: Option<string>, patterns: seq<string>) {
    |patterns| > 0 && AnyPatternHits(cleanNumber, name, CheckPatterns(patterns))
  }

  /** The pattern stage fires exactly when some stored pattern, stripped of `user_`, hits. */
  lemma HasBlockingPatternIff(number: string, name: Option<string>, patterns: seq<string>)
    ensures HasBlockingPattern(CleanNumber(number), name, patterns) <==> SomePatternHits(number, name, patterns)
  {
    var check := CheckPatterns(patterns);
    AnyPatternHitsIff(CleanNumber(number), name, check);
    if SomePatternHits(number, name, patterns) {
      var i :| 0 <= i < |patterns| && PatternHits(CleanNumber(number), name, StripUserPrefix(patterns[i]));
      assert check[i] == StripUserPrefix(patterns[i]);
    }
    if exists i :: 0 <= i < |check| && PatternHits(CleanNumber(number), name, check[i]) {
      var i :| 0 <= i < |check| && PatternHits(CleanNumber(number), name, check[i]);
      assert check[i] == StripUserPrefix(patterns[i]);
    }
  }

  // ---------------------------------------------------------------------------
  // The settings rules

  /** A contact is a known name that differs from the number itself. */
  predicate IsContact(number: string, name: Option<string>) {
    name.Some? && name.value != number
  }

  /** A character of `[0-9+\s()-]`; Java's `\s` is the six ASCII whitespace characters. */
  predicate IsDialPatternChar(c: char) {
    || IsAsciiDigit(c) || c == '+' || c == '(' || c == ')' || c == '-'
    || c == ' ' || c == '\t' || c == '\n' || c == '\U{000B}' || c == '\U{000C}' || c == '\r'
  }

  /** A number is hidden when it is blank or holds a character other than digits, `+`, parentheses, `-` and ASCII whitespace. */
  predicate IsHiddenNumber(number: string) {
    IsBlank(number) || !(forall i :: 0 <= i < |number| ==> IsDialPatternChar(number[i]))
  }

  /** A number is international when it starts with `+` but not with the Russian `+7`. */
  predicate IsInternational(number: string) {
    StartsWith(number, "+") && !StartsWith(number, "+7")
  }

  /** The app's decision for one call: a pattern hit blocks; otherwise a contact may pass, then the hidden and international rules decide. */
  predicate ShouldBlockCall(number: string, name: Option<string>, patterns: seq<string>, settings: AppSettings) {
    var cleanNumber := CleanNumber(number);
    if HasBlockingPattern(cleanNumber, name, patterns) then true
    else if IsContact(number, name) && settings.allowContacts then false
    else if settings.blockHiddenNumbers && IsHiddenNumber(number) then true
    else if settings.blockInternational && IsInternational(number) then true
    else false
  }

  // ---------------------------------------------------------------------------
  // Properties of the decision

  /** The whole decision as one formula over the reference definition of a pattern hit. */
  lemma ShouldBlockCallCases(number: string, name: Option<string>, patterns: seq<string>, settings: AppSettings)
    ensures ShouldBlockCall(number, name, patterns, settings)
            <==> SomePatternHits(number, name, patterns)
                 || (!(IsContact(number, name) && settings.allowContacts)
                     && ((settings.blockHiddenNumbers && IsHiddenNumber(number))
                         || (settings.blockInternational && IsInternational(number))))
  {
    HasBlockingPatternIff(number, name, patterns);
  }

  /** A pattern hit blocks whatever the settings say, contacts included. */
  lemma PatternHitOverridesSettings(number: string, name: Option<string>, patterns: seq<string>, settings: AppSettings, i: int)
    requires 0 <= i < |patterns|
    requires PatternHits(CleanNumber(number), name, StripUserPrefix(patterns[i]))
    ensures ShouldBlockCall(number, name, patterns, settings)
  {
    ShouldBlockCallCases(number, name, patterns, settings);
  }

  /** Without a pattern hit, an allowed contact is never blocked, even if the other rules would fire. */
  lemma ContactExemption(number: string, name: Option<string>, patterns: seq<string>, settings: AppSettings)
    requires !SomePatternHits(number, name, patterns)
    requires IsContact(number, name) && settings.allowContacts
    ensures !ShouldBlockCall(number, name, patterns, settings)
  {
    ShouldBlockCallCases(number, name, patterns, settings);
  }

  /** Without a pattern hit and without the exemption, the hidden and international rules decide. */
  lemma SettingsRulesDecide(number: string, name: Option<string>, patterns: seq<string>, settings: AppSettings)
    requires !SomePatternHits(number, name, patterns)
    requires !(IsContact(number, name) && settings.allowContacts)
    ensures ShouldBlockCall(number, name, patterns, settings)
            <==> (settings.blockHiddenNumbers && IsHiddenNumber(number))
                 || (settings.blockInternational && IsInternational(number))
  {
    ShouldBlockCallCases(number, name, patterns, settings);
  }

  /** Patterns that are blank once `user_` is removed never cause a hit: the list might as well be empty. */
  lemma BlankPatternsNeverHit(number: string, name: Option<string>, patterns: seq<string>, settings: AppSettings)
    requires forall i :: 0 <= i < |patterns| ==> IsBlank(StripUserPrefix(patterns[i]))
    ensures ShouldBlockCall(number, name, patterns, settings) == ShouldBlockCall(number, name, [], settings)
  {
    ShouldBlockCallCases(number, name, patterns, settings);
    ShouldBlockCallCases(number, name, [], settings);
  }

  /** The `user_` tag is invisible to matching: a tagged pattern hits exactly where the bare one does. */
  lemma UserTagIsTransparent(number: string, name: Option<string>, patterns: seq<string>, p: string, settings: AppSettings)
    requires !StartsWith(p, UserPrefix)
    ensures ShouldBlockCall(number, name, patterns + [UserPrefix + p], settings)
            == ShouldBlockCall(number, name, patterns + [p], settings)
  {
    RemovePrefixOfTagged(UserPrefix, p);
    var tagged := patterns + [UserPrefix + p];
    var bare := patterns + [p];
    assert forall i :: 0 <= i < |tagged| ==> StripUserPrefix(tagged[i]) == StripUserPrefix(bare[i]);
    ShouldBlockCallCases(number, name, tagged, settings);
    ShouldBlockCallCases(number, name, bare, settings);
  }

  /** Only which patterns are stored matters, not their order or repetitions. */
  lemma PatternOrderIrrelevant(number: string, name: Option<string>, a: seq<string>, b: seq<string>, settings: AppSettings)
    requires forall p :: p in a <==> p in b
    ensures ShouldBlockCall(number, name, a, settings) == ShouldBlockCall(number, name, b, settings)
  {
    ShouldBlockCallCases(number, name, a, settings);
    ShouldBlockCallCases(number, name, b, settings);
    if SomePatternHits(number, name, a) {
      var i :| 0 <= i < |a| && PatternHits(CleanNumber(number), name, StripUserPrefix(a[i]));
      assert a[i] in b;
      var j :| 0 <= j < |b| && b[j] == a[i];
    }
    if SomePatternHits(number, name, b) {
      var i :| 0 <= i < |b| && PatternHits(CleanNumber(number), name, StripUserPrefix(b[i]));
      assert b[i] in a;
      var j :| 0 <= j < |a| && a[j] == b[i];
    }
  }

  /** With no name, the `allowContacts` setting has no effect. */
  lemma NoNameNoExemption(number: string, patterns: seq<string>, settings: AppSettings)
    ensures ShouldBlockCall(number, None, patterns, settings)
            == ShouldBlockCall(number, None, patterns, settings.(allowContacts := false))
  {
  }

  // ---------------------------------------------------------------------------
  // formatPhoneNumber

  /** The display form of ten characters: `+7 `, then groups of three, three, two and two, separated by a space and dashes. */
  function DisplayGroups(last10: string): string
    requires |last10| == 10
  {
    "+7 " + last10[0..3] + " " + last10[3..6] + "-" + last10[6..8] + "-" + last10[8..]
  }

  /** The last ten characters. */
  function TakeLast10(s: string): string
    requires |s| >= 10
  {
    s[|s| - 10..]
  }

  /** The history's display form of a number: cleaned, and laid out as `+7 …` when it holds ten or more dial characters. */
  function FormatPhoneNumber(number: string): string {
    var cleanNumber := CleanNumber(number);
    if StartsWith(cleanNumber, "+7") && |cleanNumber| >= 12 then DisplayGroups(TakeLast10(cleanNumber))
    else if StartsWith(cleanNumber, "8") && |cleanNumber| >= 11 then DisplayGroups(TakeLast10(cleanNumber))
    else if |cleanNumber| >= 10 then DisplayGroups(TakeLast10(cleanNumber))
    else cleanNumber
  }

  /** Every branch of ten or more cleaned characters formats the last ten the same way. */
  lemma FormatPhoneNumberShape(number: string)
    ensures var clean := CleanNumber(number);
            && (|clean| < 10 ==> FormatPhoneNumber(number) == clean)
            && (|clean| >= 10 ==> FormatPhoneNumber(number) == DisplayGroups(clean[|clean| - 10..]))
  {
  }

  /** The display form is sixteen characters: `+7 ddd ddd-dd-dd` over the ten given characters. */
  lemma DisplayGroupsShape(l: string)
    requires |l| == 10
    ensures var r := DisplayGroups(l);
            && |r| == 16
            && r == ['+', '7', ' ', l[0], l[1], l[2], ' ', l[3], l[4], l[5], '-', l[6], l[7], '-', l[8], l[9]]
  {
  }

  /** Cleaning drops a separator between a prefix and a run of dial characters. */
  lemma CleanAcrossSeparator(x: string, sep: string, y: string)
    requires forall i :: 0 <= i < |sep| ==> !IsDialChar(sep[i])
    requires AllDialChars(y)
    ensures CleanNumber(x + sep + y) == CleanNumber(x) + y
  {
    CleanNumberAppend(x + sep, y);
    CleanNumberAppend(x, sep);
    CleanNumberOfSeparators(sep);
    var cx := CleanNumber(x);
    assert CleanNumber(x + sep) == cx + [];
    assert cx + [] == cx;
    CleanNumberOfDialChars(y);
  }

  /** Cleaning the four groups with their separators leaves `+7` followed by the groups. */
  lemma CleanGroups(a: string, b: string, c: string, d: string)
    requires AllDialChars(a) && AllDialChars(b) && AllDialChars(c) && AllDialChars(d)
    ensures CleanNumber("+7" + " " + a + " " + b + "-" + c + "-" + d) == "+7" + a + b + c + d
  {
    var x0 := "+7";
    assert CleanNumber(x0) == x0 by {
      assert AllDialChars(x0);
      CleanNumberOfDialChars(x0);
    }
    var x1 := x0 + " " + a;
    assert CleanNumber(x1) == x0 + a by {
      CleanAcrossSeparator(x0, " ", a);
    }
    var x2 := x1 + " " + b;
    assert CleanNumber(x2) == x0 + a + b by {
      CleanAcrossSeparator(x1, " ", b);
    }
    var x3 := x2 + "-" + c;
    assert CleanNumber(x3) == x0 + a + b + c by {
      CleanAcrossSeparator(x2, "-", c);
    }
    assert CleanNumber(x3 + "-" + d) == x0 + a + b + c + d by {
      CleanAcrossSeparator(x3, "-", d);
    }
  }

  /** Cleaning the display form leaves `+7` followed by the ten characters. */
  lemma CleanDisplayGroups(l: string)
    requires |l| == 10 && AllDialChars(l)
    ensures CleanNumber(DisplayGroups(l)) == "+7" + l
  {
    var a, b, c, d := l[0..3], l[3..6], l[6..8], l[8..];
    assert AllDialChars(a) && AllDialChars(b) && AllDialChars(c) && AllDialChars(d) by {
      assert forall i :: 0 <= i < 3 ==> a[i] == l[i] && b[i] == l[i + 3];
      assert forall i :: 0 <= i < 2 ==> c[i] == l[i + 6] && d[i] == l[i + 8];
    }
    CleanGroups(a, b, c, d);
    assert "+7" + " " + a + " " + b + "-" + c + "-" + d == DisplayGroups(l);
    assert "+7" + a + b + c + d == "+7" + l;
  }

  /** Formatting a formatted number changes nothing. */
  lemma FormatPhoneNumberIdempotent(number: string)
    ensures FormatPhoneNumber(FormatPhoneNumber(number)) == FormatPhoneNumber(number)
  {
    var clean := CleanNumber(number);
    if |clean| >= 10 {
      var l := TakeLast10(clean);
      CleanNumberIsDial(number);
      assert AllDialChars(l) by {
        forall i | 0 <= i < |l| ensures IsDialChar(l[i]) { assert l[i] == clean[|clean| - 10 + i]; }
      }
      FormatPhoneNumberShape(number);
      CleanDisplayGroups(l);
      var again := "+7" + l;
      assert StartsWith(again, "+7");
      assert TakeLast10(again) == l;
    } else {
      CleanNumberIsDial(number);
      CleanNumberOfDialChars(clean);
    }
  }
}
