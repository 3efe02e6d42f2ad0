/**
 * The gesture and keyboard controller of the portrait as a state machine on
 * values: the force mode, the colour theme with its fist debounce, the
 * middle-finger punishment with its delayed apology, the peace-sign
 * conversation, and the gesture terminal. Typing a message character by
 * character is abstracted to one pending timer per message; the clock is the
 * `now` each event carries.
 *
 * Two helpers of the page behave differently from what the surrounding code
 * evidently expects; every transition therefore takes a Revision, AsWritten
 * for the code as it stands and Corrected for the repaired helpers that the
 * imperative GestureMachine uses.
 */
module Controller {
  import opened Config
  import opened Gestures

  /** The lines the gesture terminal types. */
  datatype Message = HowsYourDay | BoredRemark | Apology

  /** What the onDone callback of a typed message schedules next. */
  datatype FollowUp = NoFollowUp | BoredAfterPause | ClearAfterPause

  /** The single gestureTimer handle of the gesture terminal. */
  datatype GestureTimer =
    | NoTimer
      /** The message is being typed; the timer fires when its last character is out. */
    | Typing(message: Message, onDone: FollowUp)
      /** A delayed typeGestureLines call. */
    | TypeLater(message: Message, onDone: FollowUp, due: real)
      /** A delayed clearGestureTerminal call. */
    | ClearLater(due: real)

  /** The apologyTimer handle. */
  datatype ApologyTimer = NoApology | ApologyAt(due: real)

  /** What the gesture terminal shows. */
  datatype Screen = Hidden | Showing(message: Message)

  /** Which version of clearGestureTerminal and triggerPeaceGesture a transition uses. */
  datatype Revision = AsWritten | Corrected

  /** The page-level variables the gesture handlers read and write. */
  datatype Controls = Controls(
    mode: Mode,
    themeIndex: nat,
    lastThemeSwitch: real,
    middleActive: bool,
    middleCooldownUntil: real,
    peaceCooldownUntil: real,
    apologyShown: bool,
    apologyTimer: ApologyTimer,
    gestureTyping: bool,
    gestureTimer: GestureTimer,
    screen: Screen)

  /** The values the page starts with. */
  const Initial: Controls :=
    Controls(Attract, 0, 0.0, false, 0.0, 0.0, false, NoApology, false, NoTimer, Hidden)

  /** `hands.some(isFist)`. */
  predicate AnyFist(hands: seq<Hand>)
  {
    |hands| > 0 && (IsFist(hands[0]) || AnyFist(hands[1..]))
  }

  /** `hands.some(isMiddleFingerGesture)`. */
  predicate AnyMiddleFinger(hands: seq<Hand>)
    requires HandsWellFormed(hands)
  {
    |hands| > 0 && (IsMiddleFingerGesture(hands[0]) || AnyMiddleFinger(hands[1..]))
  }

  /** `hands.some(isPeaceGesture)`. */
  predicate AnyPeace(hands: seq<Hand>)
    requires HandsWellFormed(hands)
  {
    |hands| > 0 && (IsPeaceGesture(hands[0]) || AnyPeace(hands[1..]))
  }

  // ---------------------------------------------------------------------------
  // Transitions
  // ---------------------------------------------------------------------------

  /** toggleMode. */
  function ToggleMode(s: Controls): Controls
  {
    s.(mode := Toggled(s.mode))
  }

  /** maybeSwitchTheme: a fist advances the theme, at most once every 1400 ms. */
  function MaybeSwitchTheme(s: Controls, hands: seq<Hand>, now: real): Controls
  {
    if now - s.lastThemeSwitch < 1400.0 || |hands| == 0 then s
    else if AnyFist(hands) then s.(themeIndex := (s.themeIndex + 1) % |Themes|, lastThemeSwitch := now)
    else s
  }

  /**
   * clearGestureTerminal: empties and hides the terminal and frees it. As
   * written it leaves gestureTimer running; the corrected helper cancels it.
   */
  function ClearTerminal(s: Controls, rev: Revision): Controls
  {
    s.(screen := Hidden, gestureTyping := false,
       gestureTimer := if rev == Corrected then NoTimer else s.gestureTimer)
  }

  /** typeGestureLines: ignored while the terminal is busy, otherwise starts typing msg. */
  function TypeLines(s: Controls, msg: Message, onDone: FollowUp): Controls
  {
    if s.gestureTyping then s
    else s.(gestureTyping := true, screen := Showing(msg), gestureTimer := Typing(msg, onDone))
  }

  /**
   * triggerPeaceGesture: a 6000 ms cooldown, then the two-line conversation.
   * As written the pending gestureTimer is cancelled before typeGestureLines
   * decides whether it will type at all; the corrected version leaves a busy
   * terminal alone.
   */
  function TriggerPeace(s: Controls, now: real, rev: Revision): Controls
  {
    var armed := s.(peaceCooldownUntil := now + 6000.0);
    if rev == AsWritten then TypeLines(armed.(gestureTimer := NoTimer), HowsYourDay, BoredAfterPause)
    else TypeLines(armed, HowsYourDay, BoredAfterPause)
  }

  /** triggerMiddleGesture: repel, a 9000 ms cooldown, a cleared terminal and an apology due in 7000 ms. */
  function TriggerMiddle(s: Controls, now: real, rev: Revision): Controls
  {
    if s.middleActive then s
    else
      var punished := s.(middleCooldownUntil := now + 9000.0, middleActive := true, apologyShown := false, mode := Repel);
      ClearTerminal(punished, rev).(apologyTimer := ApologyAt(now + 7000.0))
  }

  /** endMiddlePunishment: back to attract, apology cancelled, terminal cleared. */
  function EndMiddle(s: Controls, rev: Revision): Controls
  {
    if !s.middleActive then s
    else ClearTerminal(s.(middleActive := false, apologyShown := false, mode := Attract, apologyTimer := NoApology), rev)
  }

  /** handleGestures: the obscene gesture takes precedence; peace is ignored during the punishment. */
  function HandleGestures(s: Controls, hands: seq<Hand>, now: real, rev: Revision): Controls
    requires HandsWellFormed(hands)
  {
    if |hands| == 0 then s
    else if AnyMiddleFinger(hands) && now > s.middleCooldownUntil then TriggerMiddle(s, now, rev)
    else if s.middleActive then s
    else if AnyPeace(hands) && now > s.peaceCooldownUntil then TriggerPeace(s, now, rev)
    else s
  }

  /** The Space key: ends the punishment when it is on, toggles the mode otherwise. */
  function OnSpace(s: Controls, rev: Revision): Controls
  {
    if s.middleActive then EndMiddle(s, rev) else ToggleMode(s)
  }

  /** The apology timer's callback, once its time has come: types the apology. */
  function ApologyTimerFires(s: Controls, now: real): Controls
  {
    match s.apologyTimer
    case NoApology => s
    case ApologyAt(due) =>
      if now < due then s
      else TypeLines(s.(apologyShown := true, apologyTimer := NoApology), Apology, NoFollowUp)
  }

  /**
   * The gesture timer's callback: a finished message frees the terminal and
   * runs its onDone; a delayed line is typed; a delayed clear clears.
   */
  function GestureTimerFires(s: Controls, now: real, rev: Revision): Controls
  {
    match s.gestureTimer
    case NoTimer => s
    case Typing(_, onDone) =>
      var done := s.(gestureTyping := false);
      (match onDone
       case NoFollowUp => done.(gestureTimer := NoTimer)
       case BoredAfterPause => done.(gestureTimer := TypeLater(BoredRemark, ClearAfterPause, now + 2000.0))
       case ClearAfterPause => done.(gestureTimer := ClearLater(now + 900.0)))
    case TypeLater(msg, onDone, due) =>
      if now < due then s else TypeLines(s.(gestureTimer := NoTimer), msg, onDone)
    case ClearLater(due) =>
      if now < due then s else ClearTerminal(s.(gestureTimer := NoTimer), rev)
  }

  /** What can happen to the controller. */
  datatype Event =
    | HandsSeen(hands: seq<Hand>, now: real)
    | SpacePressed
    | GestureTimerDue(now: real)
    | ApologyTimerDue(now: real)

  predicate EventWellFormed(e: Event)
  {
    e.HandsSeen? ==> HandsWellFormed(e.hands)
  }

  /** One event; a hand-tracker result runs maybeSwitchTheme and then handleGestures. */
  function Step(s: Controls, e: Event, rev: Revision): Controls
    requires EventWellFormed(e)
  {
    match e
    case HandsSeen(hands, now) => HandleGestures(MaybeSwitchTheme(s, hands, now), hands, now, rev)
    case SpacePressed => OnSpace(s, rev)
    case GestureTimerDue(now) => GestureTimerFires(s, now, rev)
    case ApologyTimerDue(now) => ApologyTimerFires(s, now)
  }

  /** A sequence of events, in order. */
  function Run(s: Controls, events: seq<Event>, rev: Revision): Controls
    requires forall i :: 0 <= i < |events| ==> EventWellFormed(events[i])
    decreases |events|
  {
    if |events| == 0 then s else Run(Step(s, events[0], rev), events[1..], rev)
  }

  // ---------------------------------------------------------------------------
  // Mode and theme
  // ---------------------------------------------------------------------------

  /** toggleMode flips the mode, touches nothing else, and undoes itself. */
  lemma ToggleModeInvolution(s: Controls)
    ensures ToggleMode(s).mode != s.mode
    ensures ToggleMode(s).(mode := s.mode) == s
    ensures ToggleMode(ToggleMode(s)) == s
  {
    ToggledInvolution(s.mode);
  }

  /**
   * The theme changes exactly when at least 1400 ms have passed since the last
   * switch and some hand is a fist; it then advances by one modulo the number
   * of themes, stamps the time and changes nothing else, so switches are at
   * least 1400 ms apart and the index stays in range.
   */
  lemma ThemeSwitchCharacterized(s: Controls, hands: seq<Hand>, now: real)
    ensures var r := MaybeSwitchTheme(s, hands, now);
      r != s <==> (now - s.lastThemeSwitch >= 1400.0 && AnyFist(hands))
    ensures var r := MaybeSwitchTheme(s, hands, now);
      r != s ==>
        && r == s.(themeIndex := (s.themeIndex + 1) % |Themes|, lastThemeSwitch := now)
        && r.lastThemeSwitch >= s.lastThemeSwitch + 1400.0
    ensures s.themeIndex < |Themes| ==> MaybeSwitchTheme(s, hands, now).themeIndex < |Themes|
  {
  }

  // ---------------------------------------------------------------------------
  // Gestures and the punishment
  // ---------------------------------------------------------------------------

  /** An obscene gesture past its cooldown starts the punishment and peace is not looked at. */
  lemma MiddlePreemptsPeace(s: Controls, hands: seq<Hand>, now: real, rev: Revision)
    requires HandsWellFormed(hands) && AnyMiddleFinger(hands) && now > s.middleCooldownUntil
    ensures HandleGestures(s, hands, now, rev) == TriggerMiddle(s, now, rev)
    ensures HandleGestures(s, hands, now, rev).peaceCooldownUntil == s.peaceCooldownUntil
  {
  }

  /** During the punishment no gesture changes anything: peace never fires and the punishment does not restart. */
  lemma PunishmentIgnoresGestures(s: Controls, hands: seq<Hand>, now: real, rev: Revision)
    requires HandsWellFormed(hands) && s.middleActive
    ensures HandleGestures(s, hands, now, rev) == s
  {
  }

  /**
   * The peace conversation is triggered exactly when some hand shows the
   * sign, no obscene gesture past its cooldown preempts it, no punishment is
   * on and the peace cooldown has expired; the new cooldown ends 6000 ms on.
   */
  lemma PeaceTriggerCharacterized(s: Controls, hands: seq<Hand>, now: real, rev: Revision)
    requires HandsWellFormed(hands)
    ensures var r := HandleGestures(s, hands, now, rev);
      r.peaceCooldownUntil != s.peaceCooldownUntil <==>
        && !(AnyMiddleFinger(hands) && now > s.middleCooldownUntil)
        && !s.middleActive && AnyPeace(hands) && now > s.peaceCooldownUntil
    ensures var r := HandleGestures(s, hands, now, rev);
      r.peaceCooldownUntil != s.peaceCooldownUntil ==> r.peaceCooldownUntil == now + 6000.0
  {
  }

  /**
   * triggerMiddleGesture does nothing while the punishment is on; otherwise
   * it switches to repel, starts the punishment with a cooldown 9000 ms on,
   * schedules the apology 7000 ms on, hides and frees the terminal, and
   * leaves the theme and the peace cooldown alone.
   */
  lemma TriggerMiddleEffect(s: Controls, now: real, rev: Revision)
    ensures s.middleActive ==> TriggerMiddle(s, now, rev) == s
    ensures var r := TriggerMiddle(s, now, rev);
      !s.middleActive ==>
        && r.mode == Repel && r.middleActive && r.middleCooldownUntil == now + 9000.0
        && r.apologyTimer == ApologyAt(now + 7000.0) && !r.apologyShown
        && r.screen == Hidden && !r.gestureTyping
        && r.themeIndex == s.themeIndex && r.lastThemeSwitch == s.lastThemeSwitch
        && r.peaceCooldownUntil == s.peaceCooldownUntil
  {
  }

  /**
   * endMiddlePunishment does nothing when no punishment is on; otherwise it
   * returns to attract, ends the punishment, cancels the apology, and hides
   * and frees the terminal.
   */
  lemma EndMiddleEffect(s: Controls, rev: Revision)
    ensures !s.middleActive ==> EndMiddle(s, rev) == s
    ensures var r := EndMiddle(s, rev);
      s.middleActive ==>
        && r.mode == Attract && !r.middleActive && r.apologyTimer == NoApology && !r.apologyShown
        && r.screen == Hidden && !r.gestureTyping
        && r.middleCooldownUntil == s.middleCooldownUntil && r.themeIndex == s.themeIndex
  {
  }

  /**
   * Space ends a punishment when one is on and otherwise toggles the mode, so
   * two presses outside a punishment change nothing.
   */
  lemma SpaceDispatch(s: Controls, rev: Revision)
    ensures s.middleActive ==> OnSpace(s, rev) == EndMiddle(s, rev) && OnSpace(s, rev).mode == Attract
    ensures !s.middleActive ==> OnSpace(s, rev).mode == Toggled(s.mode) && OnSpace(OnSpace(s, rev), rev) == s
  {
    ToggledInvolution(s.mode);
  }

  /** The obscene gesture followed by Space: back to attract, no apology pending, cooldown still running. */
  lemma PunishmentRoundTrip(s: Controls, now: real, rev: Revision)
    requires !s.middleActive
    ensures var r := OnSpace(TriggerMiddle(s, now, rev), rev);
      && r.mode == Attract && !r.middleActive && r.apologyTimer == NoApology
      && r.middleCooldownUntil == now + 9000.0 && r.screen == Hidden
  {
    TriggerMiddleEffect(s, now, rev);
    EndMiddleEffect(TriggerMiddle(s, now, rev), rev);
  }

  // ---------------------------------------------------------------------------
  // The invariant of the corrected controller
  // ---------------------------------------------------------------------------

  /** The part of the invariant the page keeps in either revision: the theme in range, a punishment in repel mode. */
  predicate ModeConsistent(s: Controls)
  {
    s.themeIndex < |Themes| && (s.middleActive ==> s.mode == Repel)
  }

  /**
   * The theme index is in range; the punishment always runs in repel mode; an
   * apology is only pending during a punishment, and then nothing is typing
   * or scheduled on the terminal; the terminal is busy exactly while a
   * message is being typed, and shows that message.
   */
  predicate Consistent(s: Controls)
  {
    && ModeConsistent(s)
    && (s.apologyTimer.ApologyAt? ==> s.middleActive && s.gestureTimer == NoTimer)
    && (s.gestureTyping <==> s.gestureTimer.Typing?)
    && (s.gestureTimer.Typing? ==> s.screen == Showing(s.gestureTimer.message))
  }

  lemma InitialConsistent()
    ensures Consistent(Initial)
  {
  }

  lemma {:induction false} TypeLinesKeepsConsistent(s: Controls, msg: Message, onDone: FollowUp)
    requires Consistent(s) && s.apologyTimer == NoApology
    ensures Consistent(TypeLines(s, msg, onDone))
  {
  }

  lemma HandleGesturesKeepsConsistent(s: Controls, hands: seq<Hand>, now: real)
    requires Consistent(s) && HandsWellFormed(hands)
    ensures Consistent(HandleGestures(s, hands, now, Corrected))
  {
    if |hands| > 0 && !(AnyMiddleFinger(hands) && now > s.middleCooldownUntil) && !s.middleActive
       && AnyPeace(hands) && now > s.peaceCooldownUntil {
      TypeLinesKeepsConsistent(s.(peaceCooldownUntil := now + 6000.0), HowsYourDay, BoredAfterPause);
    }
  }

  lemma GestureTimerKeepsConsistent(s: Controls, now: real)
    requires Consistent(s)
    ensures Consistent(GestureTimerFires(s, now, Corrected))
  {
    match s.gestureTimer
    case NoTimer =>
    case Typing(_, _) =>
    case TypeLater(msg, onDone, due) =>
      if now >= due {
        TypeLinesKeepsConsistent(s.(gestureTimer := NoTimer), msg, onDone);
      }
    case ClearLater(_) =>
  }

  /** Every event keeps the corrected controller consistent. */
  lemma StepKeepsConsistent(s: Controls, e: Event)
    requires Consistent(s) && EventWellFormed(e)
    ensures Consistent(Step(s, e, Corrected))
  {
    match e
    case HandsSeen(hands, now) =>
      HandleGesturesKeepsConsistent(MaybeSwitchTheme(s, hands, now), hands, now);
    case SpacePressed =>
    case GestureTimerDue(now) =>
      GestureTimerKeepsConsistent(s, now);
    case ApologyTimerDue(now) =>
      if s.apologyTimer.ApologyAt? && now >= s.apologyTimer.due {
        TypeLinesKeepsConsistent(s.(apologyShown := true, apologyTimer := NoApology), Apology, NoFollowUp);
      }
  }

  /** Any run of the corrected controller from a consistent state stays consistent. */
  lemma {:induction false} RunKeepsConsistent(s: Controls, events: seq<Event>)
    requires Consistent(s) && forall i :: 0 <= i < |events| ==> EventWellFormed(events[i])
    ensures Consistent(Run(s, events, Corrected))
    decreases |events|
  {
    if |events| > 0 {
      StepKeepsConsistent(s, events[0]);
      RunKeepsConsistent(Step(s, events[0], Corrected), events[1..]);
    }
  }

  /** Every event, in either revision, keeps the theme in range and a punishment in repel mode. */
  lemma StepKeepsModeConsistent(s: Controls, e: Event, rev: Revision)
    requires ModeConsistent(s) && EventWellFormed(e)
    ensures ModeConsistent(Step(s, e, rev))
  {
  }

  /** Any run of the page as written, or corrected, keeps the theme in range and a punishment in repel mode. */
  lemma {:induction false} RunKeepsModeConsistent(s: Controls, events: seq<Event>, rev: Revision)
    requires ModeConsistent(s) && forall i :: 0 <= i < |events| ==> EventWellFormed(events[i])
    ensures ModeConsistent(Run(s, events, rev))
    decreases |events|
  {
    if |events| > 0 {
      StepKeepsModeConsistent(s, events[0], rev);
      RunKeepsModeConsistent(Step(s, events[0], rev), events[1..], rev);
    }
  }

  /**
   * In the corrected controller the apology, once due, is always typed: the
   * terminal is free whenever the apology timer is pending.
   */
  lemma ApologyIsTyped(s: Controls, now: real)
    requires Consistent(s) && s.apologyTimer.ApologyAt? && now >= s.apologyTimer.due
    ensures var r := ApologyTimerFires(s, now);
      && r.screen == Showing(Apology) && r.gestureTyping && r.apologyShown
      && r.gestureTimer == Typing(Apology, NoFollowUp) && r.apologyTimer == NoApology
  {
  }

  /** In the corrected controller a busy terminal is always freed by the next gesture-timer callback. */
  lemma TerminalNeverStuck(s: Controls, now: real)
    requires Consistent(s) && s.gestureTyping
    ensures !GestureTimerFires(s, now, Corrected).gestureTyping
  {
  }

  // ---------------------------------------------------------------------------
  // The code as written
  // ---------------------------------------------------------------------------

  /** Hands in which some hand shows the peace sign and none the obscene gesture or a fist. */
  predicate PeaceOnly(hands: seq<Hand>)
  {
    HandsWellFormed(hands) && AnyPeace(hands) && !AnyMiddleFinger(hands) && !AnyFist(hands)
  }

  /** Hands in which some hand shows the obscene gesture and none a fist. */
  predicate MiddleOnly(hands: seq<Hand>)
  {
    HandsWellFormed(hands) && AnyMiddleFinger(hands) && !AnyFist(hands)
  }

  /** Such hands exist: one peace sign, and one obscene gesture with the thumb out. */
  lemma ExampleHandsQualify()
    ensures PeaceOnly([ExampleHand(2.0, 2.0, 2.0, 0.5, 0.5)])
    ensures MiddleOnly([ExampleHand(2.0, 0.5, 2.0, 0.5, 0.5)])
  {
    var peace := ExampleHand(2.0, 2.0, 2.0, 0.5, 0.5);
    var middle := ExampleHand(2.0, 0.5, 2.0, 0.5, 0.5);
    ExamplePeace();
    ExampleMiddleFinger();
    assert [peace][0] == peace;
    assert [middle][0] == middle;
  }

  /** A hand-tracker result with only a peace sign runs the peace trigger when the page lets it. */
  lemma PeaceStep(s: Controls, peace: seq<Hand>, now: real, rev: Revision)
    requires PeaceOnly(peace)
    ensures Step(s, HandsSeen(peace, now), rev)
      == if s.middleActive || now <= s.peaceCooldownUntil then s else TriggerPeace(s, now, rev)
  {
  }

  /** A hand-tracker result with an obscene gesture past its cooldown starts the punishment. */
  lemma MiddleStep(s: Controls, middle: seq<Hand>, now: real, rev: Revision)
    requires MiddleOnly(middle) && now > s.middleCooldownUntil
    ensures Step(s, HandsSeen(middle, now), rev) == TriggerMiddle(s, now, rev)
  {
  }

  /** Running from position k: one step, then the rest. */
  lemma RunFrom(s: Controls, events: seq<Event>, k: nat, rev: Revision)
    requires k < |events| && forall i :: 0 <= i < |events| ==> EventWellFormed(events[i])
    ensures Run(s, events[k..], rev) == Run(Step(s, events[k], rev), events[k + 1..], rev)
  {
    assert events[k..][0] == events[k];
    assert events[k..][1..] == events[k + 1..];
  }

  /**
   * A peace sign, its first line typed, then the obscene gesture during the
   * 2000 ms pause; the pause ends, the apology falls due while the second
   * line is still being typed, and the stale timers run out.
   */
  function ApologyTrace(peace: seq<Hand>, middle: seq<Hand>): (t: seq<Event>)
    requires HandsWellFormed(peace) && HandsWellFormed(middle)
    ensures |t| == 7 && forall i :: 0 <= i < |t| ==> EventWellFormed(t[i])
  {
    [HandsSeen(peace, 10000.0), GestureTimerDue(10800.0), HandsSeen(middle, 11000.0),
     GestureTimerDue(12800.0), ApologyTimerDue(18000.0), GestureTimerDue(18100.0), GestureTimerDue(19000.0)]
  }

  /**
   * As written, the apology of ApologyTrace is never shown: the peace line
   * that clearGestureTerminal did not cancel occupies the terminal when the
   * apology falls due, the apology timer is spent, and the terminal ends
   * hidden while the punishment is still on.
   */
  lemma ApologySwallowedAsWritten(peace: seq<Hand>, middle: seq<Hand>)
    requires PeaceOnly(peace) && MiddleOnly(middle)
    ensures var t := Run(Initial, ApologyTrace(peace, middle), AsWritten);
      && t.middleActive && t.apologyShown && t.apologyTimer == NoApology
      && t.screen == Hidden && !t.gestureTyping && t.gestureTimer == NoTimer
  {
    var tr := ApologyTrace(peace, middle);
    var bored := TypeLater(BoredRemark, ClearAfterPause, 12800.0);
    PeaceStep(Initial, peace, 10000.0, AsWritten);
    var s1 := Initial.(peaceCooldownUntil := 16000.0, gestureTyping := true, screen := Showing(HowsYourDay),
                       gestureTimer := Typing(HowsYourDay, BoredAfterPause));
    assert Step(Initial, tr[0], AsWritten) == s1;
    var s2 := s1.(gestureTyping := false, gestureTimer := bored);
    assert Step(s1, tr[1], AsWritten) == s2;
    MiddleStep(s2, middle, 11000.0, AsWritten);
    var s3 := s2.(middleCooldownUntil := 20000.0, middleActive := true, mode := Repel, screen := Hidden,
                  apologyTimer := ApologyAt(18000.0));
    assert Step(s2, tr[2], AsWritten) == s3;
    var s4 := s3.(gestureTyping := true, screen := Showing(BoredRemark), gestureTimer := Typing(BoredRemark, ClearAfterPause));
    assert Step(s3, tr[3], AsWritten) == s4;
    var s5 := s4.(apologyShown := true, apologyTimer := NoApology);
    assert Step(s4, tr[4], AsWritten) == s5;
    var s6 := s5.(gestureTyping := false, gestureTimer := ClearLater(19000.0));
    assert Step(s5, tr[5], AsWritten) == s6;
    var s7 := s6.(screen := Hidden, gestureTimer := NoTimer);
    assert Step(s6, tr[6], AsWritten) == s7;
    RunFrom(Initial, tr, 0, AsWritten);
    RunFrom(s1, tr, 1, AsWritten);
    RunFrom(s2, tr, 2, AsWritten);
    RunFrom(s3, tr, 3, AsWritten);
    RunFrom(s4, tr, 4, AsWritten);
    RunFrom(s5, tr, 5, AsWritten);
    RunFrom(s6, tr, 6, AsWritten);
    assert tr[0..] == tr;
  }

  /** The corrected controller types the apology on the events of ApologyTrace. */
  lemma ApologyTypedWhenCorrected(peace: seq<Hand>, middle: seq<Hand>)
    requires PeaceOnly(peace) && MiddleOnly(middle)
    ensures var t := Run(Initial, ApologyTrace(peace, middle), Corrected);
      t.screen == Showing(Apology) && t.apologyShown && t.middleActive
  {
    var tr := ApologyTrace(peace, middle);
    var s1 := Step(Initial, tr[0], Corrected);
    var s2 := Step(s1, tr[1], Corrected);
    assert s2.gestureTimer == TypeLater(BoredRemark, ClearAfterPause, 12800.0);
    var s3 := Step(s2, tr[2], Corrected);
    assert s3.middleActive && s3.gestureTimer == NoTimer && s3.apologyTimer == ApologyAt(18000.0);
    var s4 := Step(s3, tr[3], Corrected);
    assert s4 == s3;
    var s5 := Step(s4, tr[4], Corrected);
    assert s5.screen == Showing(Apology) && s5.gestureTimer == Typing(Apology, NoFollowUp);
    var s6 := Step(s5, tr[5], Corrected);
    assert s6.screen == Showing(Apology) && s6.gestureTimer == NoTimer;
    var s7 := Step(s6, tr[6], Corrected);
    assert s7 == s6;
    RunFrom(Initial, tr, 0, Corrected);
    RunFrom(s1, tr, 1, Corrected);
    RunFrom(s2, tr, 2, Corrected);
    RunFrom(s3, tr, 3, Corrected);
    RunFrom(s4, tr, 4, Corrected);
    RunFrom(s5, tr, 5, Corrected);
    RunFrom(s6, tr, 6, Corrected);
    assert tr[0..] == tr;
  }

  /**
   * A peace sign, its conversation under way, and the same sign again once
   * the 6000 ms cooldown is over while the second line is still being typed;
   * the timers that are left run, and later the sign once more.
   */
  function FreezeTrace(peace: seq<Hand>): (t: seq<Event>)
    requires HandsWellFormed(peace)
    ensures |t| == 7 && forall i :: 0 <= i < |t| ==> EventWellFormed(t[i])
  {
    [HandsSeen(peace, 10000.0), GestureTimerDue(10800.0), GestureTimerDue(12800.0),
     HandsSeen(peace, 16500.0), GestureTimerDue(18100.0), GestureTimerDue(19000.0),
     HandsSeen(peace, 23000.0)]
  }

  /**
   * As written, the second peace sign of FreezeTrace cancels the typing of
   * the second line and is then ignored because the terminal is busy: the
   * terminal stays busy with no timer left to free it, half a line on
   * screen, and the third sign is ignored as well.
   */
  lemma PeaceFreezesTerminalAsWritten(peace: seq<Hand>)
    requires PeaceOnly(peace)
    ensures var t := Run(Initial, FreezeTrace(peace), AsWritten);
      && t.gestureTyping && t.gestureTimer == NoTimer && t.screen == Showing(BoredRemark)
  {
    var tr := FreezeTrace(peace);
    var s1 := Step(Initial, tr[0], AsWritten);
    var s2 := Step(s1, tr[1], AsWritten);
    var s3 := Step(s2, tr[2], AsWritten);
    assert s3.gestureTimer == Typing(BoredRemark, ClearAfterPause) && s3.peaceCooldownUntil == 16000.0;
    var s4 := Step(s3, tr[3], AsWritten);
    assert s4.gestureTyping && s4.gestureTimer == NoTimer && s4.screen == Showing(BoredRemark);
    var s5 := Step(s4, tr[4], AsWritten);
    assert s5 == s4;
    var s6 := Step(s5, tr[5], AsWritten);
    assert s6 == s4;
    var s7 := Step(s6, tr[6], AsWritten);
    assert s7.gestureTyping && s7.gestureTimer == NoTimer && s7.screen == Showing(BoredRemark);
    RunFrom(Initial, tr, 0, AsWritten);
    RunFrom(s1, tr, 1, AsWritten);
    RunFrom(s2, tr, 2, AsWritten);
    RunFrom(s3, tr, 3, AsWritten);
    RunFrom(s4, tr, 4, AsWritten);
    RunFrom(s5, tr, 5, AsWritten);
    RunFrom(s6, tr, 6, AsWritten);
    assert tr[0..] == tr;
  }

  /**
   * The corrected controller finishes the second line of FreezeTrace,
   * clears the terminal and starts the conversation anew on the third sign.
   */
  lemma PeaceRestartsWhenCorrected(peace: seq<Hand>)
    requires PeaceOnly(peace)
    ensures var t := Run(Initial, FreezeTrace(peace), Corrected);
      t.screen == Showing(HowsYourDay) && t.gestureTimer == Typing(HowsYourDay, BoredAfterPause)
  {
    var tr := FreezeTrace(peace);
    var s1 := Step(Initial, tr[0], Corrected);
    var s2 := Step(s1, tr[1], Corrected);
    var s3 := Step(s2, tr[2], Corrected);
    var s4 := Step(s3, tr[3], Corrected);
    assert s4.gestureTimer == Typing(BoredRemark, ClearAfterPause) && s4.gestureTyping;
    var s5 := Step(s4, tr[4], Corrected);
    assert s5.gestureTimer == ClearLater(19000.0) && !s5.gestureTyping;
    var s6 := Step(s5, tr[5], Corrected);
    assert s6.gestureTimer == NoTimer && !s6.gestureTyping && s6.peaceCooldownUntil == 22500.0;
    var s7 := Step(s6, tr[6], Corrected);
    assert s7.screen == Showing(HowsYourDay);
    RunFrom(Initial, tr, 0, Corrected);
    RunFrom(s1, tr, 1, Corrected);
    RunFrom(s2, tr, 2, Corrected);
    RunFrom(s3, tr, 3, Corrected);
    RunFrom(s4, tr, 4, Corrected);
    RunFrom(s5, tr, 5, Corrected);
    RunFrom(s6, tr, 6, Corrected);
    assert tr[0..] == tr;
  }

  /**
   * As written, a busy terminal without a timer stays busy: neither the
   * gesture-timer callback nor another peace sign frees it.
   */
  lemma FrozenTerminalStaysFrozen(s: Controls, now: real)
    requires s.gestureTyping && s.gestureTimer == NoTimer
    ensures GestureTimerFires(s, now, AsWritten) == s
    ensures var r := TriggerPeace(s, now, AsWritten);
      r.gestureTyping && r.gestureTimer == NoTimer && r.screen == s.screen
  {
  }
}
