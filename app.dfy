/** The page controller as the script writes it: module-level variables updated in
    place by click handlers and timer callbacks.  Each method performs the steps of
    its handler in the script's order and is proved to end in the state that the
    matching function of module SessionModel computes; the properties of the
    session (phase order, one pending breathing timer, nothing after a stop, the
    countdown) are proved there, about those functions. */
module App {
  import opened Options
  import opened Breath
  import opened Display
  import opened SessionModel

  class MeditationApp {
    // the script's state variables
    var durationMinutes: nat
    var remainingSeconds: int
    var timerInterval: Option<nat>
    var breathTimeout: Option<nat>
    var isMeditating: bool
    // what the page shows: the active screen, the guidance text, the countdown text
    var screen: Screen
    var guideText: string
    var countdownText: string
    // the vibration calls made so far
    var haptics: seq<Dispatch>
    // the timers the browser holds, and the next handle it will give out
    var timers: map<nat, Timer>
    var nextHandle: nat
    // the count the countdown text was last rendered from (None: the page's own text)
    ghost var displayed: Option<int>

    ghost function State(): Session
      reads this
    {
      Session(durationMinutes, remainingSeconds, timerInterval, breathTimeout, isMeditating,
              screen, guideText, displayed, haptics, timers, nextHandle)
    }

    /** The countdown text is the rendering of the count it was last rendered from. */
    ghost predicate DisplayAgrees()
      reads this
    {
      countdownText == if displayed.Some? then CountdownText(displayed.value) else ""
    }

    /** The page as loaded: five minutes selected, nothing running. */
    constructor ()
      ensures State() == Initial() && DisplayAgrees() && Inv(State())
    {
      durationMinutes := 5;
      remainingSeconds := 0;
      timerInterval := None;
      breathTimeout := None;
      isMeditating := false;
      screen := Setup;
      guideText := "";
      countdownText := "";
      displayed := None;
      haptics := [];
      timers := map[];
      nextHandle := 1;
      InitialInv();
    }

    /** `setTimeout` / `setInterval`: the browser registers `t` under a fresh handle. */
    method Schedule(t: Timer) returns (h: nat)
      modifies this
      ensures h == old(nextHandle)
      ensures State() == old(State()).(timers := old(timers)[h := t], nextHandle := h + 1)
      ensures countdownText == old(countdownText) && displayed == old(displayed)
    {
      h := nextHandle;
      timers := timers[h := t];
      nextHandle := nextHandle + 1;
    }

    /** `clearTimeout` / `clearInterval`: a handle that is not pending, or null, is ignored. */
    method ClearTimer(h: Option<nat>)
      modifies this
      ensures State() == old(State()).(timers := Clear(old(timers), h))
      ensures countdownText == old(countdownText)
    {
      if h.Some? {
        timers := timers - {h.value};
      }
    }

    /** `vibratePattern`: one call of the vibration primitive with `pattern`. */
    method VibratePattern(pattern: seq<int>)
      modifies this
      ensures State() == old(State()).(haptics := old(haptics) + [Pulse(pattern)])
      ensures countdownText == old(countdownText)
    {
      haptics := haptics + [Pulse(pattern)];
    }

    /** The add-time click handler. */
    method AddTime()
      modifies this
      ensures State() == SessionModel.AddTime(old(State()))
      ensures countdownText == old(countdownText)
      ensures Inv(old(State())) ==> Inv(State())
    {
      durationMinutes := durationMinutes + 1;
      if Inv(old(State())) {
        HandlersPreserveInv(old(State()));
      }
    }

    /** `updateCountdownDisplay`: minutes and seconds, each padded to two digits. */
    method UpdateCountdownDisplay()
      modifies this
      ensures countdownText == CountdownText(remainingSeconds)
      ensures displayed == Some(remainingSeconds) && remainingSeconds == old(remainingSeconds)
      ensures State() == old(State()).(displayed := Some(old(remainingSeconds)))
    {
      var m := FloorDiv(remainingSeconds, 60);
      var s := JsRemainder(remainingSeconds, 60);
      countdownText := PadStart2(IntText(m)) + ":" + PadStart2(IntText(s));
      displayed := Some(remainingSeconds);
    }

    /** `startMeditation`: no guard against a session already running. */
    method StartMeditation()
      modifies this
      ensures State() == Start(old(State()))
      ensures DisplayAgrees()
      ensures Inv(old(State())) && !old(isMeditating) ==> Inv(State())
    {
      ghost var s0 := State();
      screen := Meditating;
      remainingSeconds := durationMinutes * 60;
      UpdateCountdownDisplay();
      var h := Schedule(INTERVAL_TIMER);
      timerInterval := Some(h);
      isMeditating := true;
      assert State() == BeginSession(s0);
      RunBreathCycle();
      if Inv(s0) && !s0.isMeditating {
        HandlersPreserveInv(s0);
      }
    }

    /** `runBreathCycle`: the inhale phase. */
    method RunBreathCycle()
      modifies this
      ensures State() == SessionModel.RunBreathCycle(old(State()))
      ensures countdownText == old(countdownText) && displayed == old(displayed)
    {
      if !isMeditating {
        return;
      }
      guideText := "吸って...";
      var pattern := BuildInhalePattern();
      VibratePattern(pattern);
      var h := Schedule(Timer(BeginPhase(Hold), INHALE_TIME, false));
      breathTimeout := Some(h);
    }

    /** The callback armed by the inhale phase: the hold phase. */
    method HoldCallback()
      modifies this
      ensures State() == RunCallback(old(State()), BeginPhase(Hold))
      ensures countdownText == old(countdownText) && displayed == old(displayed)
    {
      if !isMeditating {
        return;
      }
      guideText := "止めて...";
      var pattern := BuildHoldPattern();
      VibratePattern(pattern);
      var h := Schedule(Timer(BeginPhase(Exhale), HOLD_TIME, false));
      breathTimeout := Some(h);
    }

    /** The callback armed by the hold phase: the exhale phase. */
    method ExhaleCallback()
      modifies this
      ensures State() == RunCallback(old(State()), BeginPhase(Exhale))
      ensures countdownText == old(countdownText) && displayed == old(displayed)
    {
      if !isMeditating {
        return;
      }
      guideText := "吐いて...";
      var pattern := BuildExhalePattern();
      VibratePattern(pattern);
      var h := Schedule(Timer(BeginPhase(Inhale), EXHALE_TIME, false));
      breathTimeout := Some(h);
    }

    /** The callback armed by the exhale phase: the next cycle. */
    method NextCycleCallback()
      modifies this
      ensures State() == RunCallback(old(State()), BeginPhase(Inhale))
      ensures countdownText == old(countdownText) && displayed == old(displayed)
    {
      if isMeditating {
        RunBreathCycle();
      }
    }

    /** The body of the countdown interval. */
    method TickCallback()
      modifies this
      ensures State() == TickStep(old(State()))
      ensures countdownText == CountdownText(old(remainingSeconds) - 1)
      ensures displayed == Some(old(remainingSeconds) - 1)
    {
      remainingSeconds := remainingSeconds - 1;
      UpdateCountdownDisplay();
      if remainingSeconds <= 0 {
        FinishMeditation();
      }
    }

    /** `finishMeditation`, from the stop button or from the last tick. */
    method FinishMeditation()
      modifies this
      ensures State() == Finish(old(State()))
      ensures countdownText == old(countdownText)
      ensures Inv(old(State())) ==> Inv(State()) && timers == map[]
    {
      isMeditating := false;
      ClearTimer(timerInterval);
      ClearTimer(breathTimeout);
      haptics := haptics + [Silence];
      screen := Finished;
      if Wf(old(State())) {
        FinishStops(old(State()));
      }
    }

    /** `resetApp`. */
    method ResetApp()
      modifies this
      ensures State() == Reset(old(State()))
      ensures countdownText == old(countdownText)
    {
      screen := Setup;
    }

    /** The callback a timer carries, as the browser invokes it. */
    method RunTimerCallback(cb: Callback)
      requires DisplayAgrees()
      modifies this
      ensures State() == RunCallback(old(State()), cb)
      ensures DisplayAgrees()
    {
      match cb
      case Tick =>
        TickCallback();
      case BeginPhase(Hold) =>
        HoldCallback();
      case BeginPhase(Exhale) =>
        ExhaleCallback();
      case BeginPhase(Inhale) =>
        NextCycleCallback();
    }

    /** The browser runs the pending timer `h`: a one-shot timer leaves the pending set
        first, then its callback runs; a handle that is not pending does nothing. */
    method Fire(h: nat)
      requires DisplayAgrees()
      modifies this
      ensures State() == SessionModel.Fire(old(State()), h)
      ensures DisplayAgrees()
      ensures Inv(old(State())) ==> Inv(State())
    {
      if h in timers {
        var t := timers[h];
        if !t.repeating {
          timers := timers - {h};
        }
        assert State() == Take(old(State()), h);
        RunTimerCallback(t.callback);
      }
      if Inv(old(State())) {
        FirePreservesInv(old(State()), h);
      }
    }
  }
}
