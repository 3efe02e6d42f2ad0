/**
 * The page's gesture state as the page keeps it: global variables that the
 * key and hand-tracker handlers update one assignment at a time. Every
 * method is tied to the value-level transition of the Controller module
 * (with the corrected terminal helpers). The event handlers (the theme
 * switch, a hand result, Space and the two timer callbacks) also keep the
 * invariant; the helpers they call may pass through states that break it.
 */
module GestureControl {
  import opened Config
  import opened Gestures
  import opened Particles
  import C = Controller

  class GestureMachine {
    var mode: Mode
    var themeIndex: nat
    var lastThemeSwitch: real
    var middleActive: bool
    var middleCooldownUntil: real
    var peaceCooldownUntil: real
    var apologyShown: bool
    var apologyTimer: C.ApologyTimer
    var gestureTyping: bool
    var gestureTimer: C.GestureTimer
    var screen: C.Screen

    /** The variables as one value. */
    function State(): C.Controls
      reads this
    {
      C.Controls(mode, themeIndex, lastThemeSwitch, middleActive, middleCooldownUntil, peaceCooldownUntil,
                 apologyShown, apologyTimer, gestureTyping, gestureTimer, screen)
    }

    ghost predicate Valid()
      reads this
    {
      C.Consistent(State())
    }

    /** The values at page load. */
    constructor ()
      ensures State() == C.Initial && Valid()
    {
      mode := Attract;
      themeIndex := 0;
      lastThemeSwitch := 0.0;
      middleActive := false;
      middleCooldownUntil := 0.0;
      peaceCooldownUntil := 0.0;
      apologyShown := false;
      apologyTimer := C.NoApology;
      gestureTyping := false;
      gestureTimer := C.NoTimer;
      screen := C.Hidden;
    }

    /** toggleMode. */
    method ToggleMode()
      modifies this
      ensures State() == C.ToggleMode(old(State()))
    {
      mode := if mode == Attract then Repel else Attract;
    }

    /** maybeSwitchTheme, recolouring the swarm from the new theme's palette when it switches. */
    method MaybeSwitchTheme(hands: seq<Hand>, now: real, swarm: Swarm, rng: RandomStream)
      requires Valid()
      modifies this, swarm.particles, rng
      ensures State() == C.MaybeSwitchTheme(old(State()), hands, now) && Valid()
      ensures themeIndex != old(themeIndex) ==>
        && rng.used == old(rng.used) + swarm.particles.Length
        && forall i :: 0 <= i < swarm.particles.Length ==>
             swarm.particles[i] == old(swarm.particles[i]).(color := PickColor(Themes[themeIndex].palette, rng.units(old(rng.used) + i)))
      ensures themeIndex == old(themeIndex) ==> unchanged(swarm.particles) && rng.used == old(rng.used)
    {
      if now - lastThemeSwitch < 1400.0 {
        return;
      }
      if |hands| == 0 {
        return;
      }
      if C.AnyFist(hands) {
        themeIndex := (themeIndex + 1) % |Themes|;
        ThemePalettesNonEmpty();
        swarm.Retheme(Themes[themeIndex].palette, rng);
        lastThemeSwitch := now;
        C.ThemeSwitchCharacterized(old(State()), hands, now);
      }
    }

    /** clearGestureTerminal, cancelling the pending gesture timer. */
    method ClearTerminal()
      modifies this
      ensures State() == C.ClearTerminal(old(State()), C.Corrected)
    {
      screen := C.Hidden;
      gestureTyping := false;
      gestureTimer := C.NoTimer;
    }

    /** typeGestureLines: ignored while busy, otherwise the typing of msg starts. */
    method TypeLines(msg: C.Message, onDone: C.FollowUp)
      modifies this
      ensures State() == C.TypeLines(old(State()), msg, onDone)
    {
      if gestureTyping {
        return;
      }
      gestureTyping := true;
      screen := C.Showing(msg);
      gestureTimer := C.Typing(msg, onDone);
    }

    /** triggerPeaceGesture, leaving a busy terminal alone. */
    method TriggerPeace(now: real)
      modifies this
      ensures State() == C.TriggerPeace(old(State()), now, C.Corrected)
    {
      peaceCooldownUntil := now + 6000.0;
      TypeLines(C.HowsYourDay, C.BoredAfterPause);
    }

    /** triggerMiddleGesture. */
    method TriggerMiddle(now: real)
      modifies this
      ensures State() == C.TriggerMiddle(old(State()), now, C.Corrected)
    {
      if middleActive {
        return;
      }
      middleCooldownUntil := now + 9000.0;
      middleActive := true;
      apologyShown := false;
      mode := Repel;
      ClearTerminal();
      apologyTimer := C.ApologyAt(now + 7000.0);
    }

    /** endMiddlePunishment. */
    method EndMiddle()
      modifies this
      ensures State() == C.EndMiddle(old(State()), C.Corrected)
    {
      if !middleActive {
        return;
      }
      middleActive := false;
      apologyShown := false;
      mode := Attract;
      apologyTimer := C.NoApology;
      ClearTerminal();
    }

    /** handleGestures. */
    method HandleGestures(hands: seq<Hand>, now: real)
      requires HandsWellFormed(hands)
      modifies this
      ensures State() == C.HandleGestures(old(State()), hands, now, C.Corrected)
    {
      if |hands| == 0 {
        return;
      }
      if C.AnyMiddleFinger(hands) && now > middleCooldownUntil {
        TriggerMiddle(now);
        return;
      }
      if middleActive {
        return;
      }
      if C.AnyPeace(hands) && now > peaceCooldownUntil {
        TriggerPeace(now);
      }
    }

    /** The hand tracker's result callback: maybeSwitchTheme, then handleGestures. */
    method OnHands(hands: seq<Hand>, now: real, swarm: Swarm, rng: RandomStream)
      requires Valid() && HandsWellFormed(hands)
      modifies this, swarm.particles, rng
      ensures State() == C.Step(old(State()), C.HandsSeen(hands, now), C.Corrected) && Valid()
    {
      MaybeSwitchTheme(hands, now, swarm, rng);
      C.HandleGesturesKeepsConsistent(State(), hands, now);
      HandleGestures(hands, now);
    }

    /** The Space key. */
    method OnSpace()
      requires Valid()
      modifies this
      ensures State() == C.Step(old(State()), C.SpacePressed, C.Corrected) && Valid()
    {
      C.StepKeepsConsistent(State(), C.SpacePressed);
      if middleActive {
        EndMiddle();
      } else {
        ToggleMode();
      }
    }

    /** The apology timer's callback. */
    method ApologyTimerFires(now: real)
      requires Valid()
      modifies this
      ensures State() == C.Step(old(State()), C.ApologyTimerDue(now), C.Corrected) && Valid()
      ensures old(apologyTimer).ApologyAt? && now >= old(apologyTimer).due ==> screen == C.Showing(C.Apology)
    {
      C.StepKeepsConsistent(State(), C.ApologyTimerDue(now));
      if apologyTimer.ApologyAt? && now >= apologyTimer.due {
        C.ApologyIsTyped(State(), now);
        apologyShown := true;
        apologyTimer := C.NoApology;
        TypeLines(C.Apology, C.NoFollowUp);
      }
    }

    /** The gesture timer's callback. */
    method GestureTimerFires(now: real)
      requires Valid()
      modifies this
      ensures State() == C.Step(old(State()), C.GestureTimerDue(now), C.Corrected) && Valid()
      ensures !gestureTyping || old(gestureTimer).TypeLater?
    {
      C.StepKeepsConsistent(State(), C.GestureTimerDue(now));
      match gestureTimer
      case NoTimer =>
      case Typing(_, onDone) =>
        gestureTyping := false;
        match onDone {
          case NoFollowUp =>
            gestureTimer := C.NoTimer;
          case BoredAfterPause =>
            gestureTimer := C.TypeLater(C.BoredRemark, C.ClearAfterPause, now + 2000.0);
          case ClearAfterPause =>
            gestureTimer := C.ClearLater(now + 900.0);
        }
      case TypeLater(msg, onDone, due) =>
        if now >= due {
          gestureTimer := C.NoTimer;
          TypeLines(msg, onDone);
        }
      case ClearLater(due) =>
        if now >= due {
          gestureTimer := C.NoTimer;
          ClearTerminal();
        }
    }
  }
}
