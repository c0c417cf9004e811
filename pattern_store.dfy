/**
 * `saveBlockedPatterns` / `loadBlockedPatterns` of MainActivity.kt over an
 * abstract preferences store: a map from key to a set of strings, which is
 * what `putStringSet` / `getStringSet` see of SharedPreferences.
 */
module PatternStore {
  import opened Text
  import opened BlockDecision

  type Store = map<string, set<string>>

  const UserPatternsKey: string := "user_patterns"
  const OtherPatternsKey: string := "other_patterns"

  /** The set stored under a key, or the empty set when the key is absent. */
  function GetStringSet(store: Store, key: string): set<string> {
    if key in store then store[key] else {}
  }

  /** The patterns the user typed in carry the `user_` tag. */
  predicate IsUserPattern(p: string) {
    StartsWith(p, UserPrefix)
  }

  /** `saveBlockedPatterns`: both sets written under their keys. */
  function SaveBlockedPatterns(store: Store, patterns: seq<string>): Store {
    store[UserPatternsKey := set p | p in patterns && IsUserPattern(p)]
         [OtherPatternsKey := set p | p in patterns && !IsUserPattern(p)]
  }

  /**
   * The tagged patterns go under `user_patterns`, all others under
   * `other_patterns`, each as a set; no other key changes.
   */
  lemma SaveBlockedPatternsContents(store: Store, patterns: seq<string>)
    ensures var r := SaveBlockedPatterns(store, patterns);
            && (forall p :: p in GetStringSet(r, UserPatternsKey) <==> p in patterns && IsUserPattern(p))
            && (forall p :: p in GetStringSet(r, OtherPatternsKey) <==> p in patterns && !IsUserPattern(p))
            && r.Keys == store.Keys + {UserPatternsKey, OtherPatternsKey}
            && (forall k :: k in store && k != UserPatternsKey && k != OtherPatternsKey ==> r[k] == store[k])
  {
  }

  /** `loadBlockedPatterns`: the union of both keys, as a list in the platform's set order. */
  ghost function LoadBlockedPatterns(store: Store): (r: seq<string>)
    ensures forall p :: p in r <==> p in GetStringSet(store, UserPatternsKey) || p in GetStringSet(store, OtherPatternsKey)
    ensures forall i, j :: 0 <= i < j < |r| ==> r[i] != r[j]
  {
    ToList(GetStringSet(store, UserPatternsKey) + GetStringSet(store, OtherPatternsKey))
  }

  /** The two saved sets never share a pattern. */
  lemma SavedSetsAreDisjoint(store: Store, patterns: seq<string>)
    ensures GetStringSet(SaveBlockedPatterns(store, patterns), UserPatternsKey)
            !! GetStringSet(SaveBlockedPatterns(store, patterns), OtherPatternsKey)
  {
    SaveBlockedPatternsContents(store, patterns);
  }

  /**
   * Save then load gives back every saved pattern once: the set survives,
   * duplicates collapse, and order is not kept.
   */
  lemma SaveLoadRoundTrip(store: Store, patterns: seq<string>)
    ensures var loaded := LoadBlockedPatterns(SaveBlockedPatterns(store, patterns));
            && (forall p :: p in loaded <==> p in patterns)
            && |loaded| <= |patterns|
  {
    SaveBlockedPatternsContents(store, patterns);
    var loaded := LoadBlockedPatterns(SaveBlockedPatterns(store, patterns));
    DistinctNoLonger(loaded, patterns);
  }

  /** A list without repetitions has no more entries than any list holding all of them. */
  lemma {:induction false} DistinctNoLonger(a: seq<string>, b: seq<string>)
    requires forall i, j :: 0 <= i < j < |a| ==> a[i] != a[j]
    requires forall p :: p in a ==> p in b
    ensures |a| <= |b|
    decreases |a|
  {
    if a != [] {
      var x := a[|a| - 1];
      var a' := a[..|a| - 1];
      assert x in a;
      assert x in b;
      var k :| 0 <= k < |b| && b[k] == x;
      var b' := b[..k] + b[k + 1..];
      forall p | p in a' ensures p in b' {
        var i :| 0 <= i < |a'| && a'[i] == p;
        assert a[i] == p && p != x;
        assert p in a;
        assert p in b;
        var j :| 0 <= j < |b| && b[j] == p;
        if j < k {
          assert b'[j] == p;
        } else {
          assert j != k;
          assert b'[j - 1] == p;
        }
      }
      DistinctNoLonger(a', b');
    }
  }

  /** Deciding over what was loaded back is deciding over what was saved. */
  lemma DecisionSurvivesSaveLoad(store: Store, patterns: seq<string>, number: string, name: Option<string>, settings: AppSettings)
    ensures ShouldBlockCall(number, name, LoadBlockedPatterns(SaveBlockedPatterns(store, patterns)), settings)
            == ShouldBlockCall(number, name, patterns, settings)
  {
    SaveLoadRoundTrip(store, patterns);
    PatternOrderIrrelevant(number, name, LoadBlockedPatterns(SaveBlockedPatterns(store, patterns)), patterns, settings);
  }
}
