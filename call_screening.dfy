/**
 * CallScreeningService.kt: the system's call-screening hook. A call is
 * blocked when its STIR/SHAKEN verification failed or when the app's rules
 * block its number; the answer to the system and the notification follow
 * from that one decision. The platform version, the call's details and the
 * preferences read are inputs.
 */
module CallScreening {
  import opened Text
  import opened BlockDecision
  import opened PatternStore

  const VerificationNotVerified: int := 0
  const VerificationPassed: int := 1
  const VerificationFailed: int := 2

  /** `Build.VERSION_CODES.Q` */
  const SdkQ: int := 29

  /**
   * What the service sees of `Call.Details`: the handle's scheme-specific
   * part, if there is a handle, and the verification status, `None` when
   * reading it throws.
   */
  datatype CallDetails = CallDetails(handle: Option<string>, verificationStatus: Option<int>)

  /** The preferences read inside the `try`: `PrefsFailed` when it throws. */
  datatype PrefsAccess = PrefsFailed | PrefsRead(settings: AppSettings, patterns: seq<string>)

  datatype CallResponse = CallResponse(disallowCall: bool, rejectCall: bool, skipCallLog: bool, skipNotification: bool)

  datatype Notification = Notification(title: string, text: string)

  datatype ScreenOutcome = ScreenOutcome(response: CallResponse, notification: Option<Notification>)

  const StirShakenReason: string := "STIR/SHAKEN"
  const PatternListReason: string := "паттерн-список"

  /** `getStirShakenStatus`: the platform's status from Q on, otherwise (or on an exception) not verified. */
  function GetStirShakenStatus(details: CallDetails, sdkInt: int): int {
    if sdkInt >= SdkQ then details.verificationStatus.GetOr(VerificationNotVerified)
    else VerificationNotVerified
  }

  /** `shouldBlockByPatterns`: the app's decision with no caller name; `false` if the preferences cannot be read. */
  function ShouldBlockByPatterns(phoneNumber: string, prefs: PrefsAccess): bool {
    match prefs
    case PrefsFailed => false
    case PrefsRead(settings, patterns) => ShouldBlockCall(phoneNumber, None, patterns, settings)
  }

  function NotificationTitle(reason: string): string {
    if reason == StirShakenReason then "Заблокировано по STIR/SHAKEN" else "Заблокировано (паттерн-список)"
  }

  /** The service's answer to one call: the response flags and, for a refused call, the notification. */
  function OnScreenCall(details: CallDetails, sdkInt: int, prefs: PrefsAccess): ScreenOutcome {
    var phoneNumber := details.handle.GetOr("");
    var isSpoofed := GetStirShakenStatus(details, sdkInt) == VerificationFailed;
    var shouldBlock := isSpoofed || ShouldBlockByPatterns(phoneNumber, prefs);
    var notification :=
      if shouldBlock then
        var reason := if isSpoofed then StirShakenReason else PatternListReason;
        Some(Notification(NotificationTitle(reason), phoneNumber))
      else None;
    var response :=
      if sdkInt >= SdkQ then CallResponse(shouldBlock, shouldBlock, shouldBlock, shouldBlock)
      else CallResponse(shouldBlock, shouldBlock, false, false);
    ScreenOutcome(response, notification)
  }

  /** The call is refused exactly when it is spoofed or the rules block it, and the notification goes with the refusal. */
  lemma ScreenDecision(details: CallDetails, sdkInt: int, prefs: PrefsAccess)
    ensures var o := OnScreenCall(details, sdkInt, prefs);
            var number := if details.handle.Some? then details.handle.value else "";
            var spoofed := sdkInt >= SdkQ && details.verificationStatus == Some(VerificationFailed);
            var blocked := spoofed || ShouldBlockByPatterns(number, prefs);
            && o.response.disallowCall == blocked
            && o.response.rejectCall == blocked
            && o.response.skipCallLog == (blocked && sdkInt >= SdkQ)
            && o.response.skipNotification == (blocked && sdkInt >= SdkQ)
            && (o.notification.Some? <==> blocked)
            && (o.notification.Some? ==> o.notification.value.text == number)
  {
  }

  /** The notification names STIR/SHAKEN exactly when verification failed; pattern blocks are labelled as such. */
  lemma NotificationReason(details: CallDetails, sdkInt: int, prefs: PrefsAccess)
    ensures var o := OnScreenCall(details, sdkInt, prefs);
            o.notification.Some? ==>
              (o.notification.value.title == "Заблокировано по STIR/SHAKEN"
               <==> GetStirShakenStatus(details, sdkInt) == VerificationFailed)
  {
  }

  /** Before Q no call counts as spoofed, so only the rules can block. */
  lemma NoSpoofingBeforeQ(details: CallDetails, sdkInt: int, prefs: PrefsAccess)
    requires sdkInt < SdkQ
    ensures OnScreenCall(details, sdkInt, prefs).response.disallowCall
            == ShouldBlockByPatterns(details.handle.GetOr(""), prefs)
  {
  }

  /** With unreadable preferences only a failed verification blocks. */
  lemma PrefsFailureOnlySpoofingBlocks(details: CallDetails, sdkInt: int)
    ensures OnScreenCall(details, sdkInt, PrefsFailed).response.disallowCall
            == (GetStirShakenStatus(details, sdkInt) == VerificationFailed)
  {
  }

  /**
   * A call without a handle is screened as the empty number: no pattern can
   * hit it, so apart from spoofing it is blocked exactly when hidden numbers
   * are blocked.
   */
  lemma MissingHandleIsHidden(verificationStatus: Option<int>, settings: AppSettings, patterns: seq<string>)
    ensures ShouldBlockByPatterns(CallDetails(None, verificationStatus).handle.GetOr(""), PrefsRead(settings, patterns))
            == settings.blockHiddenNumbers
  {
    forall i | 0 <= i < |patterns| ensures !PatternHits(CleanNumber(""), None, StripUserPrefix(patterns[i])) {
      EmptyTextContainsOnlyEmpty(StripUserPrefix(patterns[i]));
    }
    assert IsHiddenNumber("");
    ShouldBlockCallCases("", None, patterns, settings);
  }

  /** The service never passes a name, so the contact exemption never applies here. */
  lemma ContactSettingIrrelevant(phoneNumber: string, settings: AppSettings, patterns: seq<string>)
    ensures ShouldBlockByPatterns(phoneNumber, PrefsRead(settings, patterns))
            == ShouldBlockByPatterns(phoneNumber, PrefsRead(settings.(allowContacts := !settings.allowContacts), patterns))
  {
  }

  /** The service decides over the patterns the app saved, whatever order loading returns them in. */
  lemma ScreeningSeesSavedPatterns(store: Store, patterns: seq<string>, phoneNumber: string, settings: AppSettings)
    ensures ShouldBlockByPatterns(phoneNumber, PrefsRead(settings, LoadBlockedPatterns(SaveBlockedPatterns(store, patterns))))
            == ShouldBlockCall(phoneNumber, None, patterns, settings)
  {
    DecisionSurvivesSaveLoad(store, patterns, phoneNumber, None, settings);
  }
}
