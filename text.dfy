/**
 * The Kotlin standard-library string operations the call blocker relies on,
 * written out over `string` (a `seq<char>`):
 * `isBlank`, `trim`, `startsWith`, `removePrefix`, `lines`,
 * `contains`/`equals` with `ignoreCase = true`, `toIntOrNull`,
 * decimal rendering of a non-negative `Int`, and `Set.toList()`.
 */
module Text {

  datatype Option<+T> = None | Some(value: T) {
    /** Kotlin's `x ?: default`. */
    function GetOr(default: T): T {
      match this
      case Some(v) => v
      case None => default
    }
  }

  // ---------------------------------------------------------------------------
  // Characters

  predicate IsAsciiDigit(c: char) {
    '0' <= c <= '9'
  }

  /**
   * Kotlin's `Char.isWhitespace()` on the JVM: `Character.isWhitespace(c)`
   * or `Character.isSpaceChar(c)`.
   */
  predicate IsWhitespace(c: char) {
    || c == ' ' || c == '\t' || c == '\n' || c == '\U{000B}' || c == '\U{000C}' || c == '\r'
    || ('\U{001C}' <= c <= '\U{001F}')
    || c == '\U{00A0}' || c == '\U{1680}'
    || ('\U{2000}' <= c <= '\U{200A}')
    || c == '\U{2028}' || c == '\U{2029}' || c == '\U{202F}' || c == '\U{205F}' || c == '\U{3000}'
  }

  /** `isBlank()`: empty, or whitespace only. */
  predicate IsBlank(s: string) {
    forall i :: 0 <= i < |s| ==> IsWhitespace(s[i])
  }

  predicate StartsWith(s: string, prefix: string) {
    |prefix| <= |s| && s[..|prefix|] == prefix
  }

  /** `removePrefix(prefix)`: drops one leading occurrence of `prefix`, if there is one. */
  function RemovePrefix(s: string, prefix: string): (r: string)
    ensures StartsWith(s, prefix) ==> prefix + r == s
    ensures !StartsWith(s, prefix) ==> r == s
  {
    if StartsWith(s, prefix) then s[|prefix|..] else s
  }

  lemma RemovePrefixOfTagged(prefix: string, s: string)
    ensures RemovePrefix(prefix + s, prefix) == s
  {
    assert (prefix + s)[..|prefix|] == prefix;
  }

  // ---------------------------------------------------------------------------
  // trim()

  /** Drops the leading whitespace. */
  function TrimStart(s: string): string {
    if s != [] && IsWhitespace(s[0]) then TrimStart(s[1..]) else s
  }

  /** What `TrimStart` keeps is a suffix of `s` that does not start with whitespace, and what it drops is blank. */
  lemma {:induction false} TrimStartSpec(s: string)
    ensures var r := TrimStart(s);
            && |r| <= |s| && r == s[|s| - |r|..]
            && IsBlank(s[..|s| - |r|])
            && (r == [] || !IsWhitespace(r[0]))
  {
    if s != [] && IsWhitespace(s[0]) {
      var r := TrimStart(s[1..]);
      TrimStartSpec(s[1..]);
      assert s[..|s| - |r|] == [s[0]] + s[1..][..|s[1..]| - |r|];
    }
  }

  /** Drops the trailing whitespace. */
  function TrimEnd(s: string): string {
    if s != [] && IsWhitespace(s[|s| - 1]) then TrimEnd(s[..|s| - 1]) else s
  }

  /** What `TrimEnd` keeps is a prefix of `s` that does not end with whitespace, and what it drops is blank. */
  lemma {:induction false} TrimEndSpec(s: string)
    ensures var r := TrimEnd(s);
            && |r| <= |s| && r == s[..|r|]
            && IsBlank(s[|r|..])
            && (r == [] || !IsWhitespace(r[|r| - 1]))
  {
    if s != [] && IsWhitespace(s[|s| - 1]) {
      var r := TrimEnd(s[..|s| - 1]);
      TrimEndSpec(s[..|s| - 1]);
      assert s[|r|..] == s[..|s| - 1][|r|..] + [s[|s| - 1]];
    }
  }

  /** `trim()`: drops whitespace at both ends. */
  function Trim(s: string): string {
    TrimEnd(TrimStart(s))
  }

  lemma BlankConcat(a: string, b: string)
    requires IsBlank(a) && IsBlank(b)
    ensures IsBlank(a + b)
  {
    forall i | 0 <= i < |a + b| ensures IsWhitespace((a + b)[i]) {
      if i < |a| { assert (a + b)[i] == a[i]; } else { assert (a + b)[i] == b[i - |a|]; }
    }
  }

  /** `trim()` gives the empty string exactly for blank strings, and otherwise neither end is whitespace. */
  lemma TrimEmptyIffBlank(s: string)
    ensures Trim(s) == [] <==> IsBlank(s)
    ensures Trim(s) != [] ==> !IsWhitespace(Trim(s)[0]) && !IsWhitespace(Trim(s)[|Trim(s)| - 1])
  {
    var u := TrimStart(s);
    var v := TrimEnd(u);
    TrimStartSpec(s);
    TrimEndSpec(u);
    assert Trim(s) == v;
    if v == [] {
      assert u[|v|..] == u;
      assert s == s[..|s| - |u|] + u;
      BlankConcat(s[..|s| - |u|], u);
    } else {
      assert v[0] == u[0];
      assert s[|s| - |u|] == u[0];
    }
  }

  /** A trimmed string is its own trim. */
  lemma TrimIdempotent(s: string)
    ensures Trim(Trim(s)) == Trim(s)
  {
    var u := TrimStart(s);
    var v := TrimEnd(u);
    TrimStartSpec(s);
    TrimEndSpec(u);
    if v != [] {
      assert v[0] == u[0];
      assert TrimStart(v) == v;
    }
  }

  // ---------------------------------------------------------------------------
  // ignoreCase comparisons, with an ASCII-only case fold

  function LowerAscii(c: char): char {
    if 'A' <= c <= 'Z' then (c as int + 32) as char else c
  }

  /** `a.equals(b, ignoreCase = true)`. */
  predicate EqualsIgnoreCase(a: string, b: string) {
    |a| == |b| && forall i :: 0 <= i < |a| ==> LowerAscii(a[i]) == LowerAscii(b[i])
  }

  /** `pattern` occurs at position `i` of `text`, ignoring case. */
  predicate MatchesAt(text: string, pattern: string, i: int) {
    0 <= i && i + |pattern| <= |text| && EqualsIgnoreCase(text[i..i + |pattern|], pattern)
  }

  /** `text.contains(pattern, ignoreCase = true)`. */
  predicate ContainsIgnoreCase(text: string, pattern: string) {
    exists i :: 0 <= i <= |text| && MatchesAt(text, pattern, i)
  }

  /** Nothing but the empty pattern occurs in the empty text. */
  lemma EmptyTextContainsOnlyEmpty(pattern: string)
    ensures ContainsIgnoreCase("", pattern) <==> pattern == ""
  {
    if pattern == "" {
      assert MatchesAt("", pattern, 0);
    }
  }

  // ---------------------------------------------------------------------------
  // lines(): splits at "\r\n", "\n" and "\r"

  predicate IsLineBreak(c: char) {
    c == '\n' || c == '\r'
  }

  function Lines(s: string): (r: seq<string>)
    ensures |r| >= 1
    decreases |s|
  {
    if s == [] then [""]
    else if s[0] == '\r' && |s| > 1 && s[1] == '\n' then [""] + Lines(s[2..])
    else if IsLineBreak(s[0]) then [""] + Lines(s[1..])
    else
      var rest := Lines(s[1..]);
      [[s[0]] + rest[0]] + rest[1..]
  }

  /** Joins lines with "\n"; the inverse of `Lines` on text without carriage returns. */
  function JoinLines(lines: seq<string>): string
    requires |lines| >= 1
  {
    if |lines| == 1 then lines[0] else lines[0] + "\n" + JoinLines(lines[1..])
  }

  /** No line holds a line break. */
  lemma {:induction false} LinesHaveNoBreaks(s: string)
    ensures forall k, j :: 0 <= k < |Lines(s)| && 0 <= j < |Lines(s)[k]| ==> !IsLineBreak(Lines(s)[k][j])
    decreases |s|
  {
    if s == [] {
    } else if s[0] == '\r' && |s| > 1 && s[1] == '\n' {
      LinesHaveNoBreaks(s[2..]);
    } else if IsLineBreak(s[0]) {
      LinesHaveNoBreaks(s[1..]);
    } else {
      LinesHaveNoBreaks(s[1..]);
      var rest := Lines(s[1..]);
      assert Lines(s) == [[s[0]] + rest[0]] + rest[1..];
      forall k, j | 0 <= k < |Lines(s)| && 0 <= j < |Lines(s)[k]|
        ensures !IsLineBreak(Lines(s)[k][j])
      {
        if k == 0 {
          if j > 0 {
            assert Lines(s)[0][j] == rest[0][j - 1];
          }
        } else {
          assert Lines(s)[k] == rest[k];
        }
      }
    }
  }

  /** Splitting text without carriage returns and joining the lines with "\n" gives the text back. */
  lemma {:induction false} LinesJoinRoundTrip(s: string)
    requires forall i :: 0 <= i < |s| ==> s[i] != '\r'
    ensures JoinLines(Lines(s)) == s
    decreases |s|
  {
    if s != [] {
      var tail := s[1..];
      assert forall i :: 0 <= i < |tail| ==> tail[i] != '\r' by {
        forall i | 0 <= i < |tail| ensures tail[i] != '\r' { assert tail[i] == s[i + 1]; }
      }
      LinesJoinRoundTrip(tail);
      var rest := Lines(tail);
      if s[0] == '\n' {
        JoinLinesCons("", rest);
      } else {
        JoinLinesCons([s[0]] + rest[0], rest[1..]);
        JoinLinesCons(rest[0], rest[1..]);
        assert [rest[0]] + rest[1..] == rest;
      }
      assert s == [s[0]] + tail;
    }
  }

  lemma JoinLinesCons(first: string, more: seq<string>)
    ensures JoinLines([first] + more) == if more == [] then first else first + "\n" + JoinLines(more)
  {
    assert ([first] + more)[1..] == more;
  }

  // ---------------------------------------------------------------------------
  // Decimal numbers

  predicate AllDigits(s: string) {
    forall i :: 0 <= i < |s| ==> IsAsciiDigit(s[i])
  }

  function DigitChar(d: nat): (c: char)
    requires d < 10
    ensures IsAsciiDigit(c)
  {
    ('0' as int + d) as char
  }

  function DigitValue(c: char): (d: nat)
    requires IsAsciiDigit(c)
    ensures d < 10
  {
    c as int - '0' as int
  }

  /** The value of a string of decimal digits (most significant first). */
  function DecimalValue(s: string): nat
    requires AllDigits(s)
    decreases |s|
  {
    if s == [] then 0 else DecimalValue(s[..|s| - 1]) * 10 + DigitValue(s[|s| - 1])
  }

  /** `n.toString()` for `n >= 0`: the canonical decimal digits of `n`, with no leading zero. */
  function NatToString(n: nat): (r: string)
    ensures |r| > 0 && AllDigits(r)
    ensures DecimalValue(r) == n
    ensures r[0] == '0' ==> n == 0
  {
    if n < 10 then
      [DigitChar(n)]
    else
      var r := NatToString(n / 10) + [DigitChar(n % 10)];
      assert r[..|r| - 1] == NatToString(n / 10);
      r
  }

  const IntMin: int := -0x8000_0000
  const IntMax: int := 0x7FFF_FFFF

  /**
   * `toIntOrNull()`: an optional sign, then at least one digit, and the value
   * must fit in a 32-bit `Int`.
   */
  function ParseInt(s: string): (r: Option<int>)
    ensures r.Some? ==> IntMin <= r.value <= IntMax
  {
    if s == [] then None
    else if s[0] == '-' || s[0] == '+' then
      if |s| == 1 then None else SignedDigits(s[0] == '-', s[1..])
    else
      SignedDigits(false, s)
  }

  function SignedDigits(negative: bool, digits: string): Option<int> {
    if !AllDigits(digits) then None
    else
      var v: int := if negative then 0 - DecimalValue(digits) as int else DecimalValue(digits);
      if IntMin <= v <= IntMax then Some(v) else None
  }

  /** `toIntOrNull()` reads back what `toString()` wrote. */
  lemma ParseIntOfNatToString(n: nat)
    requires n <= IntMax
    ensures ParseInt(NatToString(n)) == Some(n)
  {
    assert IsAsciiDigit(NatToString(n)[0]);
  }

  // ---------------------------------------------------------------------------
  // Set.toList(): every element once, in an order the platform does not specify

  ghost function ToList(s: set<string>): (r: seq<string>)
    ensures |r| == |s|
    ensures forall x :: x in r <==> x in s
    ensures forall i, j :: 0 <= i < j < |r| ==> r[i] != r[j]
    decreases s
  {
    if s == {} then []
    else
      var x :| x in s;
      [x] + ToList(s - {x})
  }
}
