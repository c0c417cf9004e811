/**
 * `loadCallHistory` of MainActivity.kt: reads the newest rows of the call
 * log and turns each into a display record, annotated with whether the
 * blocking rules would block that number. The content provider is replaced
 * by the rows it would return, newest first.
 */
module CallHistory {
  import opened Text
  import opened BlockDecision

  /** One row of the call-log cursor; `None` is a SQL null (or, for the duration, a missing column). */
  datatype CallRow = CallRow(number: Option<string>, name: Option<string>, date: int, callType: int, duration: Option<string>)

  /** The timestamp column as shown: the date format itself is not modelled. */
  datatype Timestamp = UnknownDate | DateMillis(millis: int)

  /** The `CallLog` record shown in the history list. */
  datatype CallLog = CallLog(number: string, name: Option<string>, timestamp: Timestamp, typeLabel: string, duration: string, shouldBlock: bool)

  const UnknownNumber: string := "Неизвестный номер"

  // `android.provider.CallLog.Calls` type codes
  const IncomingType: int := 1
  const OutgoingType: int := 2
  const MissedType: int := 3
  const VoicemailType: int := 4
  const RejectedType: int := 5
  const BlockedType: int := 6

  const UnknownTypeLabel: string := "❓ Неизвестно"

  function CallTypeLabel(callType: int): string {
    if callType == IncomingType then "📥 Входящий"
    else if callType == OutgoingType then "📤 Исходящий"
    else if callType == MissedType then "❌ Пропущенный"
    else if callType == RejectedType then "🚫 Отклоненный"
    else if callType == BlockedType then "⛔ Заблокированный"
    else if callType == VoicemailType then "📩 Голосовая почта"
    else UnknownTypeLabel
  }

  /** The six known types get six different labels, and no other code gets any of them. */
  lemma CallTypeLabelsDistinct(a: int, b: int)
    ensures 1 <= a <= 6 && 1 <= b <= 6 && a != b ==> CallTypeLabel(a) != CallTypeLabel(b)
    ensures CallTypeLabel(a) == UnknownTypeLabel <==> !(1 <= a <= 6)
  {
  }

  function TimestampOf(dateMillis: int): Timestamp {
    if dateMillis > 0 then DateMillis(dateMillis) else UnknownDate
  }

  /** `String.format("%02d", n)` for `0 <= n < 100`. */
  function Pad2(n: nat): (r: string)
    requires n < 100
    ensures |r| == 2 && AllDigits(r) && DecimalValue(r) == n
  {
    var r := [DigitChar(n / 10), DigitChar(n % 10)];
    assert DigitValue(r[0]) == n / 10 && DigitValue(r[1]) == n % 10;
    assert r[..1][..0] == [];
    assert DecimalValue(r[..1]) == n / 10;
    r
  }

  /** The seconds count of a duration column: `toIntOrNull() ?: 0`, with a missing value read as "0". */
  function DurationSeconds(raw: Option<string>): int {
    ParseInt(raw.GetOr("0")).GetOr(0)
  }

  /** `m:ss` for a positive number of seconds, `0:00` otherwise. */
  function DurationText(raw: Option<string>): string {
    var v := DurationSeconds(raw);
    if v > 0 then NatToString(v / 60) + ":" + Pad2(v % 60) else "0:00"
  }

  /**
   * The text reads back as the duration: the minutes before the colon, with
   * no leading zero, and two-digit seconds after it add up to the positive
   * seconds count; it is exactly `0:00` when the column is missing,
   * unparsable or not positive.
   */
  lemma DurationTextReadsBack(raw: Option<string>)
    ensures var t := DurationText(raw);
            var v := DurationSeconds(raw);
            && |t| >= 4 && t[|t| - 3] == ':'
            && AllDigits(t[..|t| - 3]) && AllDigits(t[|t| - 2..])
            && DecimalValue(t[|t| - 2..]) < 60
            && DecimalValue(t[..|t| - 3]) * 60 + DecimalValue(t[|t| - 2..]) == (if v > 0 then v else 0)
            && (t[0] == '0' ==> |t| == 4)
            && (v <= 0 ==> t == "0:00")
  {
    var v := DurationSeconds(raw);
    var t := DurationText(raw);
    if v > 0 {
      var m := NatToString(v / 60);
      DurationParts(m, Pad2(v % 60));
      assert t[0] == m[0];
      if m[0] == '0' { assert m == NatToString(0); }
    } else {
      assert t == "0" + ":" + "00";
      DurationParts("0", "00");
      assert DecimalValue("00"[..1]) == 0;
    }
  }

  lemma DurationParts(m: string, ss: string)
    requires |m| > 0 && |ss| == 2
    ensures var t := m + ":" + ss;
            |t| >= 4 && t[|t| - 3] == ':' && t[..|t| - 3] == m && t[|t| - 2..] == ss
  {
  }

  /** One cursor row as the history shows it; the block flag is computed on the formatted number. */
  function ShapeRow(row: CallRow, patterns: seq<string>, settings: AppSettings): CallLog {
    var formatted := FormatPhoneNumber(row.number.GetOr(UnknownNumber));
    CallLog(formatted, row.name, TimestampOf(row.date), CallTypeLabel(row.callType),
            DurationText(row.duration), ShouldBlockCall(formatted, row.name, patterns, settings))
  }

  /** How many rows the loop takes: `count < limit`, stopping at the end of the cursor. */
  function RowsTaken(available: nat, limit: int): (n: nat)
    ensures limit <= 0 ==> n == 0
    ensures limit > 0 ==> n <= available && n <= limit && (n == available || n == limit)
  {
    if limit <= 0 then 0 else if limit < available then limit else available
  }

  /**
   * `loadCallHistory`: no permission or no cursor gives an empty list;
   * otherwise the first `limit` rows, each shaped, in cursor order.
   */
  method LoadCallHistory(permissionGranted: bool, cursor: Option<seq<CallRow>>, patterns: seq<string>, settings: AppSettings, limit: int)
    returns (logs: seq<CallLog>)
    ensures !permissionGranted || cursor.None? ==> logs == []
    ensures permissionGranted && cursor.Some? ==>
              && |logs| == RowsTaken(|cursor.value|, limit)
              && forall i :: 0 <= i < |logs| ==> logs[i] == ShapeRow(cursor.value[i], patterns, settings)
  {
    logs := [];
    if !permissionGranted || cursor.None? {
      return;
    }
    var rows := cursor.value;
    var count := 0;
    while count < |rows| && count < limit
      invariant 0 <= count <= |rows|
      invariant limit >= 0 ==> count <= limit
      invariant count > 0 ==> limit > 0
      invariant |logs| == count
      invariant forall i :: 0 <= i < count ==> logs[i] == ShapeRow(rows[i], patterns, settings)
    {
      var row := rows[count];
      var number := row.number.GetOr(UnknownNumber);
      var formattedNumber := FormatPhoneNumber(number);
      var shouldBlock := ShouldBlockCall(formattedNumber, row.name, patterns, settings);
      var durationText := DurationText(row.duration);
      var log := CallLog(formattedNumber, row.name, TimestampOf(row.date), CallTypeLabel(row.callType), durationText, shouldBlock);
      assert log == ShapeRow(rows[count], patterns, settings);
      logs := logs + [log];
      count := count + 1;
    }
  }

  /** The placeholder for a missing number holds no digit and no `+`, so formatting empties it. */
  lemma FormatUnknownNumber()
    ensures FormatPhoneNumber(UnknownNumber) == ""
  {
    assert forall i :: 0 <= i < |UnknownNumber| ==> !IsDialChar(UnknownNumber[i]);
    CleanNumberOfSeparators(UnknownNumber);
  }

  /**
   * A row without a number is shown with an empty number, and counts as a
   * hidden number: with that setting on it is marked unless the contact
   * exemption applies.
   */
  lemma UnknownNumberShownEmpty(row: CallRow, patterns: seq<string>, settings: AppSettings)
    requires row.number.None?
    ensures ShapeRow(row, patterns, settings).number == ""
    ensures settings.blockHiddenNumbers && !(IsContact("", row.name) && settings.allowContacts) ==> ShapeRow(row, patterns, settings).shouldBlock
  {
    FormatUnknownNumber();
    assert IsHiddenNumber("");
  }

  predicate AllDialPatternChars(s: string) {
    forall i :: 0 <= i < |s| ==> IsDialPatternChar(s[i])
  }

  lemma DialPatternConcat(a: string, b: string)
    requires AllDialPatternChars(a) && AllDialPatternChars(b)
    ensures AllDialPatternChars(a + b)
  {
    forall i | 0 <= i < |a + b| ensures IsDialPatternChar((a + b)[i]) {
      if i >= |a| {
        assert (a + b)[i] == b[i - |a|];
      }
    }
  }

  lemma DialCharsAreDialPattern(s: string)
    requires AllDialChars(s)
    ensures AllDialPatternChars(s)
  {
    forall i | 0 <= i < |s| ensures IsDialPatternChar(s[i]) {
      assert IsDialChar(s[i]);
    }
  }

  /** A display form over digits and `+` is never a hidden number. */
  lemma DisplayGroupsNotHidden(l: string)
    requires |l| == 10 && AllDialChars(l)
    ensures !IsHiddenNumber(DisplayGroups(l))
  {
    var a, b, c, d := l[0..3], l[3..6], l[6..8], l[8..];
    assert AllDialChars(a) && AllDialChars(b) && AllDialChars(c) && AllDialChars(d) by {
      assert forall i :: 0 <= i < 3 ==> a[i] == l[i] && b[i] == l[3 + i];
      assert forall i :: 0 <= i < 2 ==> c[i] == l[6 + i] && d[i] == l[8 + i];
    }
    DialCharsAreDialPattern(a);
    DialCharsAreDialPattern(b);
    DialCharsAreDialPattern(c);
    DialCharsAreDialPattern(d);
    assert AllDialPatternChars("+7 ") && AllDialPatternChars(" ") && AllDialPatternChars("-");
    DialPatternConcat("+7 ", a);
    DialPatternConcat("+7 " + a, " ");
    DialPatternConcat("+7 " + a + " ", b);
    DialPatternConcat("+7 " + a + " " + b, "-");
    DialPatternConcat("+7 " + a + " " + b + "-", c);
    DialPatternConcat("+7 " + a + " " + b + "-" + c, "-");
    DialPatternConcat("+7 " + a + " " + b + "-" + c + "-", d);
    var f := DisplayGroups(l);
    assert f == "+7 " + a + " " + b + "-" + c + "-" + d;
    assert !IsWhitespace(f[0]);
  }

  /**
   * The history's hidden-number test sees the formatted number, and that is
   * hidden exactly when the raw number holds no digit and no `+` at all.
   */
  lemma FormattedNumberHiddenIffEmpty(number: string)
    ensures IsHiddenNumber(FormatPhoneNumber(number)) <==> CleanNumber(number) == []
  {
    var clean := CleanNumber(number);
    CleanNumberIsDial(number);
    FormatPhoneNumberShape(number);
    var f := FormatPhoneNumber(number);
    if |clean| >= 10 {
      var l := clean[|clean| - 10..];
      assert AllDialChars(l) by {
        forall i | 0 <= i < |l| ensures IsDialChar(l[i]) { assert l[i] == clean[|clean| - 10 + i]; }
      }
      assert f == DisplayGroups(l);
      DisplayGroupsNotHidden(l);
    } else {
      assert f == clean;
      DialCharsAreDialPattern(clean);
      if clean != [] {
        assert IsDialChar(clean[0]);
        assert !IsWhitespace(clean[0]);
      }
    }
  }

  /**
   * The annotation is computed on the formatted number, so it can disagree
   * with the decision at ring time: a ten-or-more digit international number
   * is rewritten to `+7 …` and escapes the international rule.
   */
  lemma AnnotationDiffersFromLiveDecision()
    ensures var settings := AppSettings(20, false, false, true);
            var row := CallRow(Some("+12025550123"), None, 0, IncomingType, None);
            && ShouldBlockCall("+12025550123", None, [], settings)
            && !ShapeRow(row, [], settings).shouldBlock
  {
    InternationalNumberReformatted("+12025550123", AppSettings(20, false, false, true));
  }

  lemma InternationalNumberReformatted(raw: string, settings: AppSettings)
    requires raw == "+12025550123" && settings == AppSettings(20, false, false, true)
    ensures ShouldBlockCall(raw, None, [], settings)
    ensures !ShouldBlockCall(FormatPhoneNumber(raw), None, [], settings)
  {
    assert AllDialChars(raw);
    CleanNumberOfDialChars(raw);
    assert IsInternational(raw);
    FormatPhoneNumberShape(raw);
    var l := raw[|raw| - 10..];
    DisplayGroupsShape(l);
    var formatted := FormatPhoneNumber(raw);
    assert formatted[..2] == "+7";
    assert !IsInternational(formatted);
    FormattedNumberHiddenIffEmpty(raw);
  }

  /** With no patterns and no settings switched on, the history marks nothing. */
  lemma DefaultSettingsMarkNothing(row: CallRow)
    ensures !ShapeRow(row, [], DefaultSettings).shouldBlock
  {
  }
}
