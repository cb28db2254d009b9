/** The plugin's static class `MessageSkip`: its process-wide state, the
    loader that validates and de-duplicates the configured key names, the skip
    predicate and the two speed getters. The class's static fields become one
    immutable `State` value that every operation takes and returns. */
module MessageSkip {
  import opened Optional
  import opened KeyList

  const PLUGIN_NAME: string := "UTA_MessageSkipMZ"

  /** The static fields of the class. `scrollMessageSpeedRate` and
      `battleLogMessageSpeed` have initialisers and no assignment anywhere. */
  datatype State = State(
    keyNameList: seq<KeyName>,
    scrollMessageSpeedRate: int,
    battleLogMessageSpeed: int)

  /** The initialisers of the two speed fields. */
  const SCROLL_MESSAGE_SPEED_RATE: int := 100
  const BATTLE_LOG_MESSAGE_SPEED: int := 1

  /** The speed fields hold the values their initialisers give them. */
  predicate SpeedsAsDefined(st: State) {
    && st.scrollMessageSpeedRate == SCROLL_MESSAGE_SPEED_RATE
    && st.battleLogMessageSpeed == BATTLE_LOG_MESSAGE_SPEED
  }

  /** The fields as the class definition leaves them, before `initialize`:
      an empty key list and the two speed initialisers. */
  function ClassDefinition(): (st: State)
    ensures st.keyNameList == []
    ensures SpeedsAsDefined(st)
  {
    State([], SCROLL_MESSAGE_SPEED_RATE, BATTLE_LOG_MESSAGE_SPEED)
  }

  /** The only error the plugin raises: a configured name that is not a value
      of the host's `Input.keyMapper`. */
  datatype ParameterError = InvalidValue(value: KeyName)

  const ERROR_PREFIX: string := PLUGIN_NAME + ": plugin parameter error: invalid value. ("

  /** The text of the thrown `Error`. */
  function ErrorMessage(e: ParameterError): (m: string)
    ensures |m| == |ERROR_PREFIX| + |e.value| + 1
    ensures m[..|PLUGIN_NAME|] == PLUGIN_NAME
    ensures m[..|ERROR_PREFIX|] == ERROR_PREFIX
    ensures m[|ERROR_PREFIX| - 1] == '('
    ensures m[|ERROR_PREFIX|..|m| - 1] == e.value
    ensures m[|m| - 1] == ')'
  {
    ERROR_PREFIX + e.value + ")"
  }

  /** The message names the offending value: two errors with the same message
      are about the same name. */
  lemma ErrorMessageNamesValue(e1: ParameterError, e2: ParameterError)
    requires ErrorMessage(e1) == ErrorMessage(e2)
    ensures e1 == e2
  {
    var m := ErrorMessage(e1);
    assert e1.value == m[|ERROR_PREFIX|..|m| - 1] == e2.value;
  }

  /** Every name of `s` is in the vocabulary. */
  predicate AllKnown(s: seq<KeyName>, vocabulary: set<KeyName>) {
    forall i :: 0 <= i < |s| ==> s[i] in vocabulary
  }

  /** Position `i` holds the first name of `s` outside the vocabulary. */
  predicate IsFirstUnknown(s: seq<KeyName>, vocabulary: set<KeyName>, i: int) {
    0 <= i < |s| && s[i] !in vocabulary && AllKnown(s[..i], vocabulary)
  }

  /** What the validation loop leaves behind: the names pushed so far and the
      error it threw, if any. */
  datatype PushOutcome = PushOutcome(pushed: seq<KeyName>, thrown: Option<ParameterError>)

  /** The `for` loop of `_loadKeyNameList`: push each name in order, throwing
      at the first one the vocabulary does not hold. */
  function PushKnownNames(targetList: seq<KeyName>, vocabulary: set<KeyName>): (r: PushOutcome)
    ensures r.thrown.None? <==> AllKnown(targetList, vocabulary)
    ensures r.thrown.None? ==> r.pushed == targetList
    ensures r.thrown.Some? ==>
      exists i :: IsFirstUnknown(targetList, vocabulary, i)
        && r.pushed == targetList[..i]
        && r.thrown.value == InvalidValue(targetList[i])
  {
    if |targetList| == 0 then PushOutcome([], None)
    else if targetList[0] !in vocabulary then
      assert IsFirstUnknown(targetList, vocabulary, 0);
      PushOutcome([], Some(InvalidValue(targetList[0])))
    else
      var rest := PushKnownNames(targetList[1..], vocabulary);
      assert forall k :: 0 < k <= |targetList| ==> targetList[..k] == [targetList[0]] + targetList[1..][..k - 1];
      assert rest.thrown.Some? ==>
          exists i :: IsFirstUnknown(targetList, vocabulary, i)
            && [targetList[0]] + rest.pushed == targetList[..i]
            && rest.thrown.value == InvalidValue(targetList[i]) by {
        if rest.thrown.Some? {
          var i :| IsFirstUnknown(targetList[1..], vocabulary, i)
            && rest.pushed == targetList[1..][..i]
            && rest.thrown.value == InvalidValue(targetList[1..][i]);
          assert targetList[..i + 1] == [targetList[0]] + targetList[1..][..i];
          assert IsFirstUnknown(targetList, vocabulary, i + 1);
        }
      }
      PushOutcome([targetList[0]] + rest.pushed, rest.thrown)
  }

  /** The state after `_loadKeyNameList`, and the error if it threw. */
  datatype LoadResult = Loaded(state: State) | Threw(state: State, error: ParameterError)

  /** `_loadKeyNameList`: reset the list, push the validated names, and on
      success keep only the first occurrence of each. A throw leaves the
      names pushed before the offending one in place, not de-duplicated. */
  function LoadKeyNameList(st: State, targetList: seq<KeyName>, vocabulary: set<KeyName>): (r: LoadResult)
    ensures r.Threw? <==> exists i :: 0 <= i < |targetList| && targetList[i] !in vocabulary
    ensures r.Threw? ==>
      exists i :: IsFirstUnknown(targetList, vocabulary, i)
        && r.error == InvalidValue(targetList[i])
        && r.state.keyNameList == targetList[..i]
    ensures r.Loaded? ==> AllKnown(r.state.keyNameList, vocabulary)
    ensures r.Loaded? ==> NoDuplicates(r.state.keyNameList)
    ensures r.Loaded? ==> forall x :: x in r.state.keyNameList <==> x in targetList
    ensures r.Loaded? ==> InFirstOccurrenceOrder(r.state.keyNameList, targetList)
    ensures r.state.scrollMessageSpeedRate == st.scrollMessageSpeedRate
    ensures r.state.battleLogMessageSpeed == st.battleLogMessageSpeed
  {
    var reset := st.(keyNameList := []);
    var pushed := PushKnownNames(targetList, vocabulary);
    match pushed.thrown
    case Some(e) => Threw(reset.(keyNameList := pushed.pushed), e)
    case None => Loaded(reset.(keyNameList := Unique(pushed.pushed)))
  }

  /** `initialize`: clear the list, then load the already-parsed
      `assignKeyCodes` parameter. The key list held before plays no part. */
  function Initialize(st: State, assignKeyCodes: seq<KeyName>, vocabulary: set<KeyName>): (r: LoadResult)
    ensures r == LoadKeyNameList(st, assignKeyCodes, vocabulary)
  {
    LoadKeyNameList(st.(keyNameList := []), assignKeyCodes, vocabulary)
  }

  /** A successful load stores exactly the de-duplicated input. */
  lemma LoadedListIsUnique(st: State, targetList: seq<KeyName>, vocabulary: set<KeyName>)
    requires LoadKeyNameList(st, targetList, vocabulary).Loaded?
    ensures LoadKeyNameList(st, targetList, vocabulary).state.keyNameList == Unique(targetList)
  {
    var r := LoadKeyNameList(st, targetList, vocabulary);
    UniqueCharacterised(targetList, r.state.keyNameList);
  }

  /** Loading a list that has no duplicates stores it unchanged. */
  lemma LoadDistinctUnchanged(st: State, targetList: seq<KeyName>, vocabulary: set<KeyName>)
    requires AllKnown(targetList, vocabulary)
    requires NoDuplicates(targetList)
    ensures LoadKeyNameList(st, targetList, vocabulary) == Loaded(st.(keyNameList := targetList))
  {
    LoadedListIsUnique(st, targetList, vocabulary);
    UniqueOfDistinct(targetList);
  }

  /** Reloading the stored list reproduces the same state. */
  lemma LoadIdempotent(st: State, targetList: seq<KeyName>, vocabulary: set<KeyName>, once: State)
    requires LoadKeyNameList(st, targetList, vocabulary) == Loaded(once)
    ensures LoadKeyNameList(once, once.keyNameList, vocabulary) == Loaded(once)
  {
    LoadDistinctUnchanged(once, once.keyNameList, vocabulary);
  }

  /** `_isPressedSkipButton`: scan the stored names in order and answer true
      at the first one the input layer reports held. */
  function IsPressedSkipButton(keyNameList: seq<KeyName>, isPressed: KeyName -> bool): (r: bool)
    ensures r <==> exists i :: 0 <= i < |keyNameList| && isPressed(keyNameList[i])
  {
    if |keyNameList| == 0 then false
    else if isPressed(keyNameList[0]) then true
    else
      var r := IsPressedSkipButton(keyNameList[1..], isPressed);
      assert r ==> exists i :: 0 <= i < |keyNameList| && isPressed(keyNameList[i]) by {
        if r {
          var i :| 0 <= i < |keyNameList[1..]| && isPressed(keyNameList[1..][i]);
          assert isPressed(keyNameList[i + 1]);
        }
      }
      r
  }

  /** `isMessageSkip`: skip is active exactly when some stored key is held;
      with no stored key it is never active. */
  function IsMessageSkip(st: State, isPressed: KeyName -> bool): (r: bool)
    ensures r <==> exists k :: k in st.keyNameList && isPressed(k)
    ensures |st.keyNameList| == 0 ==> !r
  {
    IsPressedSkipButton(st.keyNameList, isPressed)
  }

  /** De-duplication never changes the skip decision. */
  lemma SkipUnaffectedByUnique(targetList: seq<KeyName>, isPressed: KeyName -> bool)
    ensures IsPressedSkipButton(Unique(targetList), isPressed) == IsPressedSkipButton(targetList, isPressed)
  {
    var u := Unique(targetList);
    if IsPressedSkipButton(targetList, isPressed) {
      var i :| 0 <= i < |targetList| && isPressed(targetList[i]);
      assert targetList[i] in u;
    }
    if IsPressedSkipButton(u, isPressed) {
      var i :| 0 <= i < |u| && isPressed(u[i]);
      assert u[i] in targetList;
    }
  }

  /** After a successful load, skip is active exactly when some name of the
      raw configured list is held. */
  lemma LoadedSkipMatchesConfiguredList(st: State, targetList: seq<KeyName>, vocabulary: set<KeyName>, isPressed: KeyName -> bool)
    requires LoadKeyNameList(st, targetList, vocabulary).Loaded?
    ensures IsMessageSkip(LoadKeyNameList(st, targetList, vocabulary).state, isPressed)
      == IsPressedSkipButton(targetList, isPressed)
  {
    LoadedListIsUnique(st, targetList, vocabulary);
    SkipUnaffectedByUnique(targetList, isPressed);
  }

  /** `getScrollMessageSpeedRate`: 100 while the field keeps its
      initialiser. */
  function GetScrollMessageSpeedRate(st: State): (r: int)
    ensures SpeedsAsDefined(st) ==> r == 100
  {
    st.scrollMessageSpeedRate
  }

  /** `getBattleLogMessageSpeed`: 1 while the field keeps its initialiser. */
  function GetBattleLogMessageSpeed(st: State): (r: int)
    ensures SpeedsAsDefined(st) ==> r == 1
  {
    st.battleLogMessageSpeed
  }

  /** Nothing assigns the two speed fields, so `initialize`, whether it loads
      or throws, keeps them as defined and the getters keep answering 100
      and 1. */
  lemma InitializeKeepsSpeeds(st: State, assignKeyCodes: seq<KeyName>, vocabulary: set<KeyName>)
    requires SpeedsAsDefined(st)
    ensures SpeedsAsDefined(Initialize(st, assignKeyCodes, vocabulary).state)
    ensures GetScrollMessageSpeedRate(Initialize(st, assignKeyCodes, vocabulary).state) == 100
    ensures GetBattleLogMessageSpeed(Initialize(st, assignKeyCodes, vocabulary).state) == 1
  {
  }
}
