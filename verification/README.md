# UTA_MessageSkipMZ in Dafny

A model of the decision logic of the RPG Maker MZ plugin `UTA_MessageSkipMZ`.
While one of the configured keys is held, the plugin makes text messages,
scrolling text and the battle log run fast. The model covers:

- the static class `MessageSkip`: its fields, the key-list loader
  `_loadKeyNameList` (validation against the values of `Input.keyMapper`,
  then de-duplication that keeps first occurrences), `initialize`, the skip
  predicate `_isPressedSkipButton` / `isMessageSkip`, and the two speed
  getters;
- the five wrappers the plugin installs on host methods:
  `Window_Message.updateShowFast`, `Window_Message.updateInput`,
  `Window_ScrollText.isFastForward`, `Window_ScrollText.scrollSpeed` and
  `Window_BattleLog.messageSpeed`.

Everything is a pure function. The class's static fields are one immutable
`MessageSkip.State` value. `LoadKeyNameList` returns `Loaded(state)` or, where
the source throws, `Threw(state, error)`: the state then holds the names pushed
before the offending one. The host is represented by parameters:

- the key vocabulary (the values of `Input.keyMapper`) is a `set<string>`;
- `Input.isPressed` is a function `string -> bool`;
- the two `Window_Message` originals become function parameters over the
  modelled `MessageWindow` record. These are `MessageWindow -> MessageWindow`
  for `updateShowFast`, and `MessageWindow -> (MessageWindow, bool)` for
  `updateInput`;
- the model has no record for the scroll-text or battle-log window. For the
  original `isFastForward`, `scrollSpeed` and `messageSpeed`, the result is
  the only thing the wrapper uses, so it is passed as a plain value. So are
  `$gameMessage.scrollNoFast()` and `$gameMessage.scrollSpeed()`.

`Input.update()` and `terminateMessage()` are recorded only as call counts in
`WindowOverrides.InputStep`.

Files:

- `optional.dfy`: `Option`.
- `key_list.dfy`: JavaScript `indexOf`, the first-occurrence filter, and the
  lemmas that characterise it.
- `message_skip.dfy`: the `MessageSkip` class.
- `window_overrides.dfy`: the five wrappers.

`assignKeyCodes` is the only plugin parameter the code reads. The scroll rate
(100) and the battle-log speed (1) are field initialisers that nothing assigns.

## Model

| member | source | states |
|---|---|---|
| KeyList.IndexOf | src/plugin/ts/UTA_MessageSkipMZ.ts:93 | `indexOf` returns -1 exactly when the name is absent; otherwise it returns a position holding the name with no earlier occurrence |
| KeyList.KeepFirstOccurrences | src/plugin/ts/UTA_MessageSkipMZ.ts:92-94 | the filter over the first n positions has no duplicates, holds exactly the names of that prefix, and lists them in first-occurrence order |
| KeyList.Unique | src/plugin/ts/UTA_MessageSkipMZ.ts:91-94 | the de-duplicated list has no duplicates, holds the same names as its input, and keeps first-occurrence order |
| KeyList.UniqueCharacterised | src/plugin/ts/UTA_MessageSkipMZ.ts:92-94 | those properties determine the result: any list with the input's names in first-occurrence order equals it |
| KeyList.UniqueOfDistinct | src/plugin/ts/UTA_MessageSkipMZ.ts:89-94 | a list with no duplicates is kept unchanged |
| KeyList.UniqueIdempotent | src/plugin/ts/UTA_MessageSkipMZ.ts:92-94 | de-duplicating twice gives the same list as de-duplicating once |
| MessageSkip.ErrorMessage | src/plugin/ts/UTA_MessageSkipMZ.ts:87 | the thrown message is exactly the fixed prefix `UTA_MessageSkipMZ: plugin parameter error: invalid value. (`, then the offending value, then `)`; it starts with the plugin name |
| MessageSkip.ErrorMessageNamesValue | src/plugin/ts/UTA_MessageSkipMZ.ts:87 | equal messages name equal values, so the message identifies the rejected name |
| MessageSkip.ClassDefinition | src/plugin/ts/UTA_MessageSkipMZ.ts:34-48 | before `initialize` the key list is empty and the speed fields hold their initialisers, scroll rate 100 and battle-log speed 1 |
| MessageSkip.GetScrollMessageSpeedRate | src/plugin/ts/UTA_MessageSkipMZ.ts:121-123 | the getter answers 100 while the field keeps its initialiser |
| MessageSkip.GetBattleLogMessageSpeed | src/plugin/ts/UTA_MessageSkipMZ.ts:125-127 | the getter answers 1 while the field keeps its initialiser |
| MessageSkip.PushKnownNames | dest/plugin/UTA_MessageSkipMZ.js:206-215 | the validation loop throws iff some name is outside the vocabulary; on a throw it has pushed exactly the names before the first such name, and the error is that name |
| MessageSkip.LoadKeyNameList | src/plugin/ts/UTA_MessageSkipMZ.ts:81-95 | loading fails iff some input name is outside the vocabulary, and the error reports the first one; a failure leaves the earlier names stored and not de-duplicated; on success every stored name is in the vocabulary, there are no duplicates, the set of names equals the input's, and order is first-occurrence order; the speed fields never change |
| MessageSkip.Initialize | src/plugin/ts/UTA_MessageSkipMZ.ts:64-71 | initialising does the same as loading from any prior state, so the previous key list plays no part |
| MessageSkip.LoadedListIsUnique | src/plugin/ts/UTA_MessageSkipMZ.ts:89-94 | a successful load stores exactly the de-duplicated input |
| MessageSkip.LoadDistinctUnchanged | src/plugin/ts/UTA_MessageSkipMZ.ts:89-94 | loading a valid list that has no duplicates stores it unchanged |
| MessageSkip.LoadIdempotent | src/plugin/ts/UTA_MessageSkipMZ.ts:81-95 | reloading the stored list reproduces the same state |
| MessageSkip.IsPressedSkipButton | src/plugin/ts/UTA_MessageSkipMZ.ts:103-110 | the scan answers true iff some listed key is pressed |
| MessageSkip.IsMessageSkip | src/plugin/ts/UTA_MessageSkipMZ.ts:117-119 | skip is active iff some stored key is pressed, and never with an empty key list |
| MessageSkip.SkipUnaffectedByUnique | dest/plugin/UTA_MessageSkipMZ.js:217-235 | the skip predicate over the de-duplicated list equals the predicate over the raw list |
| MessageSkip.LoadedSkipMatchesConfiguredList | dest/plugin/UTA_MessageSkipMZ.js:205-235 | after a successful load, skip is active iff some name of the configured list is pressed |
| MessageSkip.InitializeKeepsSpeeds | dest/plugin/UTA_MessageSkipMZ.js:190-249 | starting from the class-defined speed fields, initialize (whether it loads or throws) keeps them, so the scroll-rate getter returns 100 and the battle-log getter returns 1; initialize never assigns those fields |
| WindowOverrides.UpdateShowFast | dest/plugin/UTA_MessageSkipMZ.js:295-303 | after the host step, an active skip sets `_showFast`, `_lineShowFast` and `_pauseSkip` and leaves every other field as the host left it; without skip the host's window is returned unchanged |
| WindowOverrides.UpdateInput | dest/plugin/UTA_MessageSkipMZ.js:305-317 | when `pause` (read after the host step) and skip both hold: the result is true, `pause` becomes false, no other field changes, input is advanced exactly once, and `terminateMessage` is called iff `_textState` is absent; otherwise the host's window and result stand and neither host call is made |
| WindowOverrides.IsFastForward | src/plugin/ts/UTA_MessageSkipMZ.ts:164-171 | under `scrollNoFast` it is false whatever the host and the skip state; otherwise it is the host's result or skip |
| WindowOverrides.ScrollSpeed | src/plugin/ts/UTA_MessageSkipMZ.ts:174-182 | under skip without `scrollNoFast` it is half the authored speed times the rate getter's value, whatever the host's fast-forward condition; in every other case it is the host's speed |
| WindowOverrides.BattleLogMessageSpeed | src/plugin/ts/UTA_MessageSkipMZ.ts:188-194 | under skip it is the battle-log getter's value; otherwise it is the host's speed |
| WindowOverrides.NoFastForwardWins | src/plugin/ts/UTA_MessageSkipMZ.ts:164-182 | with `scrollNoFast`, fast-forward is off and the scroll speed is the host's, whatever the skip key does |
| WindowOverrides.SkipScrollSpeedAsDefined | src/plugin/ts/UTA_MessageSkipMZ.ts:174-182 | with the class's rate of 100, a skipping scroll runs at 50 times the authored speed (authored 10 gives 500), whatever the host's speed |
| WindowOverrides.SkipBattleLogSpeedAsDefined | dest/plugin/UTA_MessageSkipMZ.js:345-350 | with the class's value, a skipping battle log runs at speed 1, whatever the host's speed |
| WindowOverrides.OverridesInertWithoutSkip | dest/plugin/UTA_MessageSkipMZ.js:295-350 | while no stored key is pressed, each wrapper returns what the host computed; the one exception is that `scrollNoFast` still turns fast-forward off |

## Left out

- `PluginManager.parameters` and `JsonEx.parse` are host code. The model starts from the already-parsed `assignKeyCodes` list of strings.
- The contents of `Input.keyMapper` are host data. The vocabulary is an abstract set, so whether the option value `letf` (a likely typo for `left` in the parameter options) is accepted is not decided.
- The effects of `Input.update()` and `terminateMessage()` belong to the host and are only counted. So are the internals of every original host method.
- WindowOverrides.ScrollSpeed: takes the host's original `scrollSpeed` result as a value. The host's formula itself calls the wrapped `isFastForward`, and that formula is host code.
- WindowOverrides.ScrollSpeed: uses exact real arithmetic for `/ 2` and `*`, not JavaScript double-precision floating point.
- The throwing constructor of the static class, `PLUGIN_VERSION`, and the prototype patching are plumbing with no decision logic. So is the top-level `MessageSkip.initialize()` call that runs when the script loads.
- `src/plugin/annotation.js` is parameter documentation only. The `.d.ts` files are type declarations, used only for field names.
