/**
 * CallReceiver.kt: the phone-state broadcast receiver. On a ringing call it
 * looks the number up in the contacts, applies its own pattern test — which
 * neither strips `user_` nor cleans the number — shows a toast and, on a
 * hit, tries to end the call. The contact lookup is an input and the attempt
 * to end the call is reported, not performed.
 */
module CallReceiver {
  import opened Text
  import opened BlockDecision
  import opened PatternStore

  // `TelephonyManager.EXTRA_STATE_*`
  const StateRinging: string := "RINGING"
  const StateOffhook: string := "OFFHOOK"
  const StateIdle: string := "IDLE"

  /** The receiver reads its own key, which nothing in the app writes. */
  const BlockedPatternsKey: string := "blocked_patterns"

  /** The receiver's `loadBlockedPatterns`. */
  ghost function ReceiverPatterns(store: Store): (r: seq<string>)
    ensures forall p :: p in r <==> p in GetStringSet(store, BlockedPatternsKey)
  {
    ToList(GetStringSet(store, BlockedPatternsKey))
  }

  /** The receiver's `shouldBlockCall`: the raw number and the stored patterns as they are. */
  predicate ReceiverShouldBlock(number: string, name: Option<string>, patterns: seq<string>) {
    |patterns| > 0 && AnyPatternHits(number, name, patterns)
  }

  /** A call is blocked iff some non-blank stored pattern occurs in the raw number or in the name. */
  lemma ReceiverShouldBlockIff(number: string, name: Option<string>, patterns: seq<string>)
    ensures ReceiverShouldBlock(number, name, patterns)
            <==> exists i :: 0 <= i < |patterns| && !IsBlank(patterns[i])
                   && (ContainsIgnoreCase(number, patterns[i]) || (name.Some? && ContainsIgnoreCase(name.value, patterns[i])))
  {
    AnyPatternHitsIff(number, name, patterns);
  }

  /**
   * On a number made only of digits and `+`, and on patterns without the
   * `user_` tag, the receiver's test is the app's pattern stage.
   */
  lemma ReceiverAgreesOnPlainInput(number: string, name: Option<string>, patterns: seq<string>)
    requires AllDialChars(number)
    requires forall i :: 0 <= i < |patterns| ==> !StartsWith(patterns[i], UserPrefix)
    ensures ReceiverShouldBlock(number, name, patterns) <==> HasBlockingPattern(CleanNumber(number), name, patterns)
  {
    CleanNumberOfDialChars(number);
    assert CheckPatterns(patterns) == patterns;
  }

  /** A tagged pattern the app blocks on is missed by the receiver. */
  lemma ReceiverMissesTaggedPattern()
    ensures ShouldBlockCall("123", None, ["user_123"], DefaultSettings)
    ensures !ReceiverShouldBlock("123", None, ["user_123"])
  {
    assert MatchesAt(CleanNumber("123"), StripUserPrefix("user_123"), 0) by {
      assert AllDialChars("123");
      CleanNumberOfDialChars("123");
      assert StripUserPrefix("user_123") == "123";
    }
    PatternHitOverridesSettings("123", None, ["user_123"], DefaultSettings, 0);
    assert !ContainsIgnoreCase("123", "user_123");
  }

  lemma CleanSeparatedNumber()
    ensures CleanNumber("12-34") == "1234"
  {
    CleanNumberAppend("12", "-34");
    CleanNumberAppend("-", "34");
    assert AllDialChars("12") && AllDialChars("34");
    CleanNumberOfDialChars("12");
    CleanNumberOfDialChars("34");
    assert "12-34" == "12" + "-34" && "-34" == "-" + "34";
  }

  lemma SeparatedNumberMissesPattern()
    ensures !ContainsIgnoreCase("12-34", "1234")
  {
    forall i | 0 <= i <= 5 ensures !MatchesAt("12-34", "1234", i) {
      if i == 0 {
        assert LowerAscii("12-34"[2]) != LowerAscii("1234"[2]);
      } else if i == 1 {
        assert LowerAscii("12-34"[1]) != LowerAscii("1234"[0]);
      }
    }
  }

  /** A separator inside the raw number hides a pattern from the receiver but not from the app. */
  lemma ReceiverMissesSeparatedNumber()
    ensures ShouldBlockCall("12-34", None, ["1234"], DefaultSettings)
    ensures !ReceiverShouldBlock("12-34", None, ["1234"])
  {
    CleanSeparatedNumber();
    assert MatchesAt(CleanNumber("12-34"), StripUserPrefix("1234"), 0);
    assert !IsWhitespace("1234"[0]);
    PatternHitOverridesSettings("12-34", None, ["1234"], DefaultSettings, 0);
    SeparatedNumberMissesPattern();
  }

  /** What one broadcast leads to. */
  datatype ReceiverAction =
    | Ringing(toast: string, blockAttempted: bool)
    | CallStarted
    | CallEnded
    | Ignored

  function RingingToast(number: string, contactName: Option<string>, shouldBlock: bool): string {
    "📞 " + (if shouldBlock then "БЛОКИРУЕМ" else "Звонок от") + ": " + contactName.GetOr(number)
  }

  /** `onReceive`: the `when (state)` over the broadcast's extras. */
  function OnReceive(state: Option<string>, incomingNumber: Option<string>, contactName: Option<string>, patterns: seq<string>): ReceiverAction {
    if state == Some(StateRinging) then
      match incomingNumber
      case None => Ignored
      case Some(number) =>
        var shouldBlock := ReceiverShouldBlock(number, contactName, patterns);
        Ringing(RingingToast(number, contactName, shouldBlock), shouldBlock)
    else if state == Some(StateOffhook) then CallStarted
    else if state == Some(StateIdle) then CallEnded
    else Ignored
  }

  /**
   * An attempt to end the call is made exactly for a ringing broadcast that
   * carries a number the receiver's test blocks; the toast names the contact
   * when there is one, and the number otherwise.
   */
  lemma OnReceiveBlocksOnlyRinging(state: Option<string>, incomingNumber: Option<string>, contactName: Option<string>, patterns: seq<string>)
    ensures var a := OnReceive(state, incomingNumber, contactName, patterns);
            && (a.Ringing? <==> state == Some(StateRinging) && incomingNumber.Some?)
            && (a.Ringing? && a.blockAttempted <==>
                  state == Some(StateRinging) && incomingNumber.Some?
                  && ReceiverShouldBlock(incomingNumber.value, contactName, patterns))
            && (a.Ringing? ==> a.toast == RingingToast(incomingNumber.value, contactName, a.blockAttempted))
            && (a.CallStarted? <==> state == Some(StateOffhook))
            && (a.CallEnded? <==> state == Some(StateIdle))
  {
  }

  /** The toast says which way the receiver decided and whom it is about. */
  lemma RingingToastShape(number: string, contactName: Option<string>, shouldBlock: bool)
    ensures var t := RingingToast(number, contactName, shouldBlock);
            var who := if contactName.Some? then contactName.value else number;
            && StartsWith(t, "📞 ")
            && t[|t| - |who|..] == who
            && (shouldBlock <==> StartsWith(t, "📞 БЛОКИРУЕМ"))
  {
    var t := RingingToast(number, contactName, shouldBlock);
    if !shouldBlock {
      assert t[..|"📞 БЛОКИРУЕМ"|][2] != "📞 БЛОКИРУЕМ"[2];
    }
  }

  /**
   * Over preferences the app alone has written, the receiver's key is never
   * present, so its list is empty and no broadcast leads to a block attempt.
   */
  lemma ReceiverNeverBlocksOverAppStore(store: Store, patterns: seq<string>, state: Option<string>, incomingNumber: Option<string>, contactName: Option<string>)
    requires BlockedPatternsKey !in store
    ensures ReceiverPatterns(SaveBlockedPatterns(store, patterns)) == []
    ensures var a := OnReceive(state, incomingNumber, contactName, ReceiverPatterns(SaveBlockedPatterns(store, patterns)));
            !(a.Ringing? && a.blockAttempted)
  {
    var saved := SaveBlockedPatterns(store, patterns);
    SaveBlockedPatternsContents(store, patterns);
    assert BlockedPatternsKey !in saved;
    assert GetStringSet(saved, BlockedPatternsKey) == {};
  }
}
