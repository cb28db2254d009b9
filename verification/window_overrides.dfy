/** The five host methods the plugin wraps. Each wrapper is a total function
    of the plugin state, the input layer's `isPressed` query and whatever the
    host contributes. The two `Window_Message` originals become function
    parameters over the modelled `MessageWindow` record. The scroll-text and
    battle-log windows have no record here, so for their originals only the
    result the wrapper uses is passed, as a plain value. */
module WindowOverrides {
  import opened Optional
  import opened KeyList
  import opened MessageSkip

  /** The host's `_textState` object. The wrappers only test whether it is
      present (a message is mid-reveal), so the model keeps no contents. */
  datatype TextState = TextState

  /** The fields of `Window_Message` the plugin reads or writes, with the
      other declared fields alongside so that "nothing else changes" can be
      stated. */
  datatype MessageWindow = MessageWindow(
    openness: int,
    background: int,
    positionType: int,
    waitCount: int,
    textState: Option<TextState>,
    showFast: bool,
    lineShowFast: bool,
    pauseSkip: bool,
    pause: bool)

  /** `a` and `b` agree on every field the plugin never writes. */
  predicate SameUntouchedFields(a: MessageWindow, b: MessageWindow) {
    && a.openness == b.openness
    && a.background == b.background
    && a.positionType == b.positionType
    && a.waitCount == b.waitCount
    && a.textState == b.textState
  }

  /** `a` and `b` agree on every field except, possibly, the three reveal
      flags. */
  predicate SameExceptRevealFlags(a: MessageWindow, b: MessageWindow) {
    SameUntouchedFields(a, b) && a.pause == b.pause
  }

  /** `a` and `b` agree on every field except, possibly, `pause`. */
  predicate SameExceptPause(a: MessageWindow, b: MessageWindow) {
    && SameUntouchedFields(a, b)
    && a.showFast == b.showFast
    && a.lineShowFast == b.lineShowFast
    && a.pauseSkip == b.pauseSkip
  }

  /** `Window_Message.updateShowFast`: after the host's step, an active skip
      forces the whole line to show at once and the page-end pause to be
      skipped; nothing else is touched. */
  function UpdateShowFast(
    st: State, isPressed: KeyName -> bool,
    hostUpdateShowFast: MessageWindow -> MessageWindow,
    w: MessageWindow): (r: MessageWindow)
    ensures IsMessageSkip(st, isPressed) ==> r.showFast && r.lineShowFast && r.pauseSkip
    ensures IsMessageSkip(st, isPressed) ==> SameExceptRevealFlags(r, hostUpdateShowFast(w))
    ensures !IsMessageSkip(st, isPressed) ==> r == hostUpdateShowFast(w)
  {
    var hosted := hostUpdateShowFast(w);
    if IsMessageSkip(st, isPressed) then
      hosted.(showFast := true, lineShowFast := true, pauseSkip := true)
    else hosted
  }

  /** What one call of the `updateInput` wrapper produces: the window, the
      returned flag, and how often it called `Input.update()` and
      `terminateMessage()` (host calls whose effects stay with the host). */
  datatype InputStep = InputStep(
    window: MessageWindow,
    result: bool,
    inputUpdates: nat,
    terminateMessageCalls: nat)

  /** The wrapper's own condition, read after the host's step. */
  predicate AutoAdvances(st: State, isPressed: KeyName -> bool, hosted: MessageWindow) {
    hosted.pause && IsMessageSkip(st, isPressed)
  }

  /** `Window_Message.updateInput`: after the host's step, a paused window
      under an active skip has its input acknowledged once, its pause cleared
      and, when no text is mid-reveal, its message terminated; the call then
      reports input handled. Otherwise the host's window and result stand. */
  function UpdateInput(
    st: State, isPressed: KeyName -> bool,
    hostUpdateInput: MessageWindow -> (MessageWindow, bool),
    w: MessageWindow): (r: InputStep)
    ensures AutoAdvances(st, isPressed, hostUpdateInput(w).0) ==>
      && r.result
      && !r.window.pause
      && SameExceptPause(r.window, hostUpdateInput(w).0)
      && r.inputUpdates == 1
      && r.terminateMessageCalls <= 1
      && (r.terminateMessageCalls == 1 <==> hostUpdateInput(w).0.textState.None?)
    ensures !AutoAdvances(st, isPressed, hostUpdateInput(w).0) ==>
      && r.result == hostUpdateInput(w).1
      && r.window == hostUpdateInput(w).0
      && r.inputUpdates == 0
      && r.terminateMessageCalls == 0
  {
    var (hosted, ret) := hostUpdateInput(w);
    if hosted.pause && IsMessageSkip(st, isPressed) then
      var terminated := if hosted.textState.None? then 1 else 0;
      InputStep(hosted.(pause := false), true, 1, terminated)
    else InputStep(hosted, ret, 0, 0)
  }

  /** `Window_ScrollText.isFastForward`: text authored as "no fast forward"
      never fast-forwards; otherwise the host's condition or an active skip. */
  function IsFastForward(
    st: State, isPressed: KeyName -> bool,
    hostIsFastForward: bool, scrollNoFast: bool): (r: bool)
    ensures scrollNoFast ==> !r
    ensures !scrollNoFast ==> (r <==> hostIsFastForward || IsMessageSkip(st, isPressed))
  {
    if scrollNoFast then false else hostIsFastForward || IsMessageSkip(st, isPressed)
  }

  /** `Window_ScrollText.scrollSpeed`: under an active skip on text that may
      fast-forward, half the authored speed times the skip rate; otherwise the
      host's speed. The host's own fast-forward condition does not matter,
      because an active skip already makes the wrapped `isFastForward` true. */
  function ScrollSpeed(
    st: State, isPressed: KeyName -> bool,
    hostIsFastForward: bool, scrollNoFast: bool,
    authoredSpeed: int, hostScrollSpeed: real): (r: real)
    ensures IsMessageSkip(st, isPressed) && !scrollNoFast ==>
      r == authoredSpeed as real / 2.0 * GetScrollMessageSpeedRate(st) as real
    ensures !(IsMessageSkip(st, isPressed) && !scrollNoFast) ==> r == hostScrollSpeed
  {
    if IsFastForward(st, isPressed, hostIsFastForward, scrollNoFast) && IsMessageSkip(st, isPressed) then
      var speed := authoredSpeed as real / 2.0;
      speed * GetScrollMessageSpeedRate(st) as real
    else hostScrollSpeed
  }

  /** `Window_BattleLog.messageSpeed`: the configured skip speed while skip is
      active, the host's speed otherwise. */
  function BattleLogMessageSpeed(st: State, isPressed: KeyName -> bool, hostMessageSpeed: int): (r: int)
    ensures IsMessageSkip(st, isPressed) ==> r == GetBattleLogMessageSpeed(st)
    ensures !IsMessageSkip(st, isPressed) ==> r == hostMessageSpeed
  {
    if IsMessageSkip(st, isPressed) then GetBattleLogMessageSpeed(st) else hostMessageSpeed
  }

  /** The author's "no fast forward" flag wins over both the host and the
      skip key. */
  lemma NoFastForwardWins(st: State, isPressed: KeyName -> bool, hostIsFastForward: bool, authoredSpeed: int, hostScrollSpeed: real)
    ensures !IsFastForward(st, isPressed, hostIsFastForward, true)
    ensures ScrollSpeed(st, isPressed, hostIsFastForward, true, authoredSpeed, hostScrollSpeed) == hostScrollSpeed
  {
  }

  /** With the rate the class defines, a skipping scroll moves at 50 times the
      authored speed: for an authored speed of 10, at 500. */
  lemma SkipScrollSpeedAsDefined(
    st: State, isPressed: KeyName -> bool,
    hostIsFastForward: bool, authoredSpeed: int, hostScrollSpeed: real)
    requires SpeedsAsDefined(st)
    requires IsMessageSkip(st, isPressed)
    ensures ScrollSpeed(st, isPressed, hostIsFastForward, false, authoredSpeed, hostScrollSpeed)
            == (50 * authoredSpeed) as real
    ensures authoredSpeed == 10 ==>
      ScrollSpeed(st, isPressed, hostIsFastForward, false, authoredSpeed, hostScrollSpeed) == 500.0
  {
  }

  /** With the speed the class defines, a skipping battle log runs at speed 1
      whatever the host's own speed. */
  lemma SkipBattleLogSpeedAsDefined(st: State, isPressed: KeyName -> bool, hostMessageSpeed: int)
    requires SpeedsAsDefined(st)
    requires IsMessageSkip(st, isPressed)
    ensures BattleLogMessageSpeed(st, isPressed, hostMessageSpeed) == 1
  {
  }

  /** While no stored key is held, every wrapper hands back exactly what the
      host computed, except that "no fast forward" still forbids fast-forward. */
  lemma OverridesInertWithoutSkip(
    st: State, isPressed: KeyName -> bool,
    hostUpdateShowFast: MessageWindow -> MessageWindow,
    hostUpdateInput: MessageWindow -> (MessageWindow, bool),
    w: MessageWindow,
    hostIsFastForward: bool, scrollNoFast: bool, authoredSpeed: int, hostScrollSpeed: real,
    hostMessageSpeed: int)
    requires forall k :: k in st.keyNameList ==> !isPressed(k)
    ensures UpdateShowFast(st, isPressed, hostUpdateShowFast, w) == hostUpdateShowFast(w)
    ensures UpdateInput(st, isPressed, hostUpdateInput, w)
      == InputStep(hostUpdateInput(w).0, hostUpdateInput(w).1, 0, 0)
    ensures IsFastForward(st, isPressed, hostIsFastForward, scrollNoFast) == (hostIsFastForward && !scrollNoFast)
    ensures ScrollSpeed(st, isPressed, hostIsFastForward, scrollNoFast, authoredSpeed, hostScrollSpeed) == hostScrollSpeed
    ensures BattleLogMessageSpeed(st, isPressed, hostMessageSpeed) == hostMessageSpeed
  {
  }
}
