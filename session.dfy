/** The meditation session as a value: the page's module-level state, the timers
    the browser holds for it, the last guidance text and the log of haptic
    dispatches.  Every event handler and timer callback of the page is a
    function from the state before to the state after; the class in module App
    performs the same steps in place and is proved against these functions.

    The countdown element is recorded by the count it last rendered (`displayed`,
    None for the page's own initial text); module Display gives the text shown for a
    count, and the class in module App holds that text.

    Timers are explicit: `timers` maps each pending handle to what it will run.
    The environment fires a pending handle (Fire); a one-shot timer is removed
    when it fires, a repeating one stays until it is cleared.  Handles are
    allocated from `nextHandle` and never reused, so clearing a handle that has
    already fired, or `null` (None), changes nothing. */
module SessionModel {
  import opened Options
  import opened Breath

  datatype Screen = Setup | Meditating | Finished

  /** What a timer runs when it fires: the countdown tick, or the callback that begins `phase`. */
  datatype Callback = Tick | BeginPhase(phase: Phase)

  datatype Timer = Timer(callback: Callback, delay: nat, repeating: bool)

  /** One call of the vibration primitive: a pulse pattern, or 0 to silence the motor. */
  datatype Dispatch = Pulse(pattern: seq<int>) | Silence

  const INITIAL_MINUTES: nat := 5
  const TICK_MS: nat := 1000

  datatype Session = Session(
    durationMinutes: nat,
    remainingSeconds: int,
    timerInterval: Option<nat>,
    breathTimeout: Option<nat>,
    isMeditating: bool,
    screen: Screen,
    guide: string,
    displayed: Option<int>,
    haptics: seq<Dispatch>,
    timers: map<nat, Timer>,
    nextHandle: nat)

  /** The state when the page loads. */
  function Initial(): Session
  {
    Session(INITIAL_MINUTES, 0, None, None, false, Setup, "", None, [], map[], 1)
  }

  /** `clearTimeout` / `clearInterval` on the browser's pending timers; `null` clears nothing. */
  function Clear(timers: map<nat, Timer>, h: Option<nat>): map<nat, Timer>
  {
    if h.Some? then timers - {h.value} else timers
  }

  const INTERVAL_TIMER: Timer := Timer(Tick, TICK_MS, true)

  /** The one-shot timer armed when phase `ph` begins: it starts the next phase after `ph`'s duration. */
  function BreathTimer(ph: Phase): Timer
  {
    Timer(BeginPhase(Next(ph)), Duration(ph), false)
  }

  /** The add-time click handler. */
  function AddTime(s: Session): Session
  {
    s.(durationMinutes := s.durationMinutes + 1)
  }

  /** The side effects of entering a phase: its guidance text, its pattern dispatched, and
      (`setTimeout`, handle `nextHandle`) one timer for the next phase, stored in `breathTimeout`. */
  function EnterPhase(s: Session, ph: Phase): Session
  {
    s.(guide := GuideText(ph),
       haptics := s.haptics + [Pulse(Pattern(ph))],
       timers := s.timers[s.nextHandle := BreathTimer(ph)],
       breathTimeout := Some(s.nextHandle),
       nextHandle := s.nextHandle + 1)
  }

  /** `runBreathCycle`: the inhale phase, guarded by the meditating flag. */
  function RunBreathCycle(s: Session): Session
  {
    if !s.isMeditating then s else EnterPhase(s, Inhale)
  }

  /** The first part of `startMeditation`: the meditation screen, the countdown set to the
      duration in seconds and shown, the interval armed (`setInterval`, handle `nextHandle`)
      and the flag set. */
  function BeginSession(s: Session): Session
  {
    var seconds := s.durationMinutes * 60;
    s.(screen := Meditating,
       remainingSeconds := seconds,
       displayed := Some(seconds),
       timers := s.timers[s.nextHandle := INTERVAL_TIMER],
       timerInterval := Some(s.nextHandle),
       nextHandle := s.nextHandle + 1,
       isMeditating := true)
  }

  /** `startMeditation`: the session begun, then the breathing cycle.  There is no guard
      against a session already running. */
  function Start(s: Session): Session
  {
    RunBreathCycle(BeginSession(s))
  }

  /** `finishMeditation`: the flag, both stored timers, the silencing dispatch, the completion screen. */
  function Finish(s: Session): Session
  {
    s.(isMeditating := false,
       timers := Clear(Clear(s.timers, s.timerInterval), s.breathTimeout),
       haptics := s.haptics + [Silence],
       screen := Finished)
  }

  /** `resetApp`. */
  function Reset(s: Session): Session
  {
    s.(screen := Setup)
  }

  /** The body of the countdown interval: one second off, shown, and the end at 0 or below. */
  function TickStep(s: Session): Session
  {
    var left := s.remainingSeconds - 1;
    var s1 := s.(remainingSeconds := left, displayed := Some(left));
    if left <= 0 then Finish(s1) else s1
  }

  /** The body of a timer callback.  The hold and exhale callbacks return at once when the
      flag is off; the one that closes the cycle calls `runBreathCycle` only when it is on. */
  function RunCallback(s: Session, cb: Callback): Session
  {
    match cb
    case Tick => TickStep(s)
    case BeginPhase(Inhale) => if s.isMeditating then RunBreathCycle(s) else s
    case BeginPhase(ph) => if !s.isMeditating then s else EnterPhase(s, ph)
  }

  /** The state once the browser has taken timer `h` off its pending list to run it:
      a one-shot timer is gone, a repeating one stays. */
  function Take(s: Session, h: nat): Session
    requires h in s.timers
  {
    if s.timers[h].repeating then s else s.(timers := s.timers - {h})
  }

  /** The environment fires the timer with handle `h`; a handle that is not pending does nothing. */
  function Fire(s: Session, h: nat): Session
  {
    if h !in s.timers then s else RunCallback(Take(s, h), s.timers[h].callback)
  }

  /** The handles of the pending breathing-phase timers. */
  function BreathTimers(s: Session): set<nat>
  {
    set h | h in s.timers && s.timers[h].callback.BeginPhase?
  }

  /** Holds in every reachable state, whatever the order of events:
      the duration never drops below its start value, handles are fresh and every
      breathing timer is a one-shot `setTimeout`. */
  predicate Wf(s: Session)
  {
    s.durationMinutes >= INITIAL_MINUTES &&
    (forall h :: h in s.timers ==> h < s.nextHandle) &&
    (forall h :: h in s.timers && s.timers[h].callback.BeginPhase? ==> !s.timers[h].repeating)
  }

  /** A running session: exactly the countdown interval and one breathing timer are pending;
      the breathing timer is the one armed by the current phase, whose text is shown and whose
      pattern was the last dispatch; the countdown is positive and displayed. */
  predicate Running(s: Session)
  {
    s.timerInterval.Some? && s.breathTimeout.Some? &&
    var hi, hb := s.timerInterval.value, s.breathTimeout.value;
    hi != hb && s.timers.Keys == {hi, hb} &&
    s.timers[hi] == INTERVAL_TIMER &&
    s.timers[hb].callback.BeginPhase? &&
    var ph := Prev(s.timers[hb].callback.phase);
    s.timers[hb] == BreathTimer(ph) &&
    s.guide == GuideText(ph) &&
    |s.haptics| > 0 && s.haptics[|s.haptics| - 1] == Pulse(Pattern(ph)) &&
    1 <= s.remainingSeconds <= s.durationMinutes * 60 &&
    s.displayed == Some(s.remainingSeconds)
  }

  /** The phase a running session is in. */
  function CurrentPhase(s: Session): Phase
    requires Running(s)
  {
    Prev(s.timers[s.breathTimeout.value].callback.phase)
  }

  /** The session invariant: running while the flag is on, no timer pending while it is off. */
  predicate Inv(s: Session)
  {
    Wf(s) &&
    (s.isMeditating ==> Running(s)) &&
    (!s.isMeditating ==> s.timers == map[])
  }

  /** The dispatches made by `k` phase entries after `ph`. */
  function BreathLog(ph: Phase, k: nat): (log: seq<Dispatch>)
    ensures |log| == k
    ensures forall i :: 0 <= i < k ==> log[i] == Pulse(Pattern(Advance(ph, i + 1)))
  {
    if k == 0 then [] else BreathLog(ph, k - 1) + [Pulse(Pattern(Advance(ph, k)))]
  }

  /** The environment fires the countdown interval `h` `k` times. */
  function Ticks(s: Session, h: nat, k: nat): Session
  {
    if k == 0 then s else Fire(Ticks(s, h, k - 1), h)
  }

  /** The environment fires whichever breathing timer is current, `k` times. */
  function Breaths(s: Session, k: nat): Session
  {
    if k == 0 then s
    else
      var p := Breaths(s, k - 1);
      if p.breathTimeout.Some? then Fire(p, p.breathTimeout.value) else p
  }

  // ---------------------------------------------------------------------------
  // Properties

  lemma InitialInv()
    ensures Inv(Initial()) && !Initial().isMeditating && Initial().screen == Setup
    ensures Initial().durationMinutes == 5 && Initial().haptics == []
  {
  }

  /** What `startMeditation` leaves behind, field by field. */
  lemma StartFacts(s: Session)
    ensures var s' := Start(s);
      var hi, hb := s.nextHandle, s.nextHandle + 1;
      s'.timers == s.timers[hi := INTERVAL_TIMER][hb := BreathTimer(Inhale)] &&
      s'.nextHandle == s.nextHandle + 2 &&
      s'.timerInterval == Some(hi) && s'.breathTimeout == Some(hb) &&
      s'.isMeditating && s'.screen == Meditating &&
      s'.remainingSeconds == s.durationMinutes * 60 &&
      s'.displayed == Some(s.durationMinutes * 60) &&
      s'.guide == GuideText(Inhale) && s'.haptics == s.haptics + [Pulse(Pattern(Inhale))] &&
      s'.durationMinutes == s.durationMinutes
  {
  }

  lemma EnterPhaseWf(s: Session, ph: Phase)
    requires Wf(s)
    ensures Wf(EnterPhase(s, ph))
  {
  }

  lemma FinishWf(s: Session)
    requires Wf(s)
    ensures Wf(Finish(s))
  {
  }

  lemma TickStepWf(s: Session)
    requires Wf(s)
    ensures Wf(TickStep(s))
  {
    var left := s.remainingSeconds - 1;
    FinishWf(s.(remainingSeconds := left, displayed := Some(left)));
  }

  lemma FireWf(s: Session, h: nat)
    requires Wf(s)
    ensures Wf(Fire(s, h))
  {
    if h in s.timers {
      var s1 := Take(s, h);
      assert Wf(s1);
      match s.timers[h].callback
      case Tick =>
        TickStepWf(s1);
      case BeginPhase(ph) =>
        EnterPhaseWf(s1, ph);
    }
  }

  /** No handler or callback can break Wf, in any order (a double start included). */
  lemma WfPreserved(s: Session, h: nat)
    requires Wf(s)
    ensures Wf(AddTime(s)) && Wf(Start(s)) && Wf(Finish(s)) && Wf(Reset(s)) && Wf(Fire(s, h))
    ensures AddTime(s).durationMinutes == s.durationMinutes + 1
  {
    StartFacts(s);
    FinishWf(s);
    FireWf(s, h);
  }

  /** Only the add-time handler changes the selected duration, and it adds one minute:
      from its initial 5 the duration never decreases. */
  lemma DurationOnlyGrows(s: Session, h: nat)
    ensures AddTime(s).durationMinutes == s.durationMinutes + 1
    ensures Start(s).durationMinutes == s.durationMinutes
    ensures Finish(s).durationMinutes == s.durationMinutes
    ensures Reset(s).durationMinutes == s.durationMinutes
    ensures Fire(s, h).durationMinutes == s.durationMinutes
  {
    if h in s.timers {
      var s1 := Take(s, h);
      match s.timers[h].callback
      case Tick =>
        var left := s1.remainingSeconds - 1;
        assert Finish(s1.(remainingSeconds := left, displayed := Some(left))).durationMinutes == s.durationMinutes;
      case BeginPhase(ph) =>
    }
  }

  /** In a state satisfying Inv only one breathing timer is pending, and none once stopped. */
  lemma AtMostOneBreathTimer(s: Session)
    requires Inv(s)
    ensures s.isMeditating ==> BreathTimers(s) == {s.breathTimeout.value}
    ensures !s.isMeditating ==> BreathTimers(s) == {}
    ensures |BreathTimers(s)| <= 1
  {
    if s.isMeditating {
      var hi, hb := s.timerInterval.value, s.breathTimeout.value;
      assert hi !in BreathTimers(s);
      assert hb in BreathTimers(s);
      assert BreathTimers(s) == {hb};
    } else {
      assert BreathTimers(s) == {};
    }
  }

  /** Entering a phase while only the countdown interval is pending gives a running session in that phase. */
  lemma EnterPhaseRunning(s: Session, ph: Phase)
    requires Wf(s) && s.isMeditating && s.timerInterval.Some?
    requires s.timers == map[s.timerInterval.value := INTERVAL_TIMER]
    requires 1 <= s.remainingSeconds <= s.durationMinutes * 60
    requires s.displayed == Some(s.remainingSeconds)
    ensures Inv(EnterPhase(s, ph)) && CurrentPhase(EnterPhase(s, ph)) == ph
  {
    var s' := EnterPhase(s, ph);
    var hi, hb := s.timerInterval.value, s.nextHandle;
    EnterPhaseWf(s, ph);
    assert hi in s.timers;
    assert s'.timers == map[hi := INTERVAL_TIMER, hb := BreathTimer(ph)];
    assert s'.timers.Keys == {hi, hb};
    assert Prev(Next(ph)) == ph by {
      match ph
      case Inhale =>
      case Hold =>
      case Exhale =>
    }
  }

  /** Starting from a stopped session: the countdown is set to the duration in seconds and
      shown, the flag is on, the inhale text is shown, exactly the inhale pattern is
      dispatched and the hold phase is armed after INHALE_TIME. */
  lemma StartBeginsInhale(s: Session)
    requires Inv(s) && !s.isMeditating
    ensures var s' := Start(s);
      Inv(s') && s'.isMeditating && s'.screen == Meditating &&
      s'.remainingSeconds == s.durationMinutes * 60 &&
      s'.displayed == Some(s.durationMinutes * 60) &&
      CurrentPhase(s') == Inhale && s'.guide == GuideText(Inhale) &&
      s'.haptics == s.haptics + [Pulse(Pattern(Inhale))] &&
      s'.timers[s'.breathTimeout.value] == Timer(BeginPhase(Hold), INHALE_TIME, false) &&
      s'.durationMinutes == s.durationMinutes
  {
    var s1 := BeginSession(s);
    assert Start(s) == EnterPhase(s1, Inhale);
    EnterPhaseRunning(s1, Inhale);
    StartFacts(s);
  }

  /** Firing the pending breathing timer of a running session enters the next phase of the
      cycle: its text, exactly its pattern, and one new timer with its duration.  The
      countdown, the screen and the interval are untouched. */
  lemma PhaseAdvance(s: Session)
    requires Inv(s) && s.isMeditating
    ensures var s' := Fire(s, s.breathTimeout.value);
      var ph := Next(CurrentPhase(s));
      Inv(s') && s'.isMeditating && CurrentPhase(s') == ph &&
      s'.guide == GuideText(ph) &&
      s'.haptics == s.haptics + [Pulse(Pattern(ph))] &&
      s'.timers[s'.breathTimeout.value] == BreathTimer(ph) &&
      s'.timers[s'.breathTimeout.value].delay == Duration(ph) &&
      s'.remainingSeconds == s.remainingSeconds && s'.displayed == s.displayed &&
      s'.timerInterval == s.timerInterval && s'.screen == s.screen &&
      s'.durationMinutes == s.durationMinutes
  {
    var hi, hb := s.timerInterval.value, s.breathTimeout.value;
    var ph := Next(CurrentPhase(s));
    assert s.timers[hb].callback == BeginPhase(ph);
    var s1 := Take(s, hb);
    assert s1 == s.(timers := s.timers - {hb});
    assert s1.timers == map[hi := INTERVAL_TIMER];
    assert Fire(s, hb) == EnterPhase(s1, ph);
    EnterPhaseRunning(s1, ph);
  }

  /** Firing the countdown interval runs the tick body (the interval stays pending). */
  lemma FireInterval(s: Session)
    requires Inv(s) && s.isMeditating
    ensures Fire(s, s.timerInterval.value) == TickStep(s)
  {
    var hi := s.timerInterval.value;
    assert s.timers[hi] == INTERVAL_TIMER;
    assert Take(s, hi) == s;
  }

  /** A tick that leaves time on the clock changes the count and its display only. */
  lemma TickContinues(s: Session)
    requires Inv(s) && s.isMeditating && s.remainingSeconds > 1
    ensures var left := s.remainingSeconds - 1;
      var s' := s.(remainingSeconds := left, displayed := Some(left));
      TickStep(s) == s' && Inv(s')
  {
  }

  /** The tick that brings the count to 0 finishes the session. */
  lemma TickFinishes(s: Session)
    requires Inv(s) && s.isMeditating && s.remainingSeconds == 1
    ensures var s1 := s.(remainingSeconds := 0, displayed := Some(0));
      TickStep(s) == Finish(s1) && Inv(Finish(s1)) && !Finish(s1).isMeditating
  {
    var s1 := s.(remainingSeconds := 0, displayed := Some(0));
    var hi, hb := s.timerInterval.value, s.breathTimeout.value;
    assert s1.timers.Keys == {hi, hb};
    assert Finish(s1).timers.Keys == {hi, hb} - {hi} - {hb};
    FinishWf(s1);
  }

  /** Firing the countdown interval of a running session takes one second off and shows it;
      the session ends exactly when the count reaches 0, and otherwise nothing else changes. */
  lemma TickAdvance(s: Session)
    requires Inv(s) && s.isMeditating
    ensures var s' := Fire(s, s.timerInterval.value);
      var left := s.remainingSeconds - 1;
      Inv(s') && s'.remainingSeconds == left &&
      s'.displayed == Some(left) &&
      (s'.isMeditating <==> left > 0) &&
      (left > 0 ==> s' == s.(remainingSeconds := left, displayed := Some(left))) &&
      (left == 0 ==> s' == Finish(s.(remainingSeconds := 0, displayed := Some(0))))
  {
    FireInterval(s);
    if s.remainingSeconds > 1 {
      TickContinues(s);
    } else {
      TickFinishes(s);
    }
  }

  /** `finishMeditation` in any state: the flag is off, both stored timers are cleared, one
      silencing dispatch is made and the completion screen is shown; in a session satisfying
      the invariant no timer at all is left pending. */
  lemma FinishStops(s: Session)
    requires Wf(s)
    ensures var s' := Finish(s);
      !s'.isMeditating && s'.screen == Finished &&
      s'.haptics == s.haptics + [Silence] &&
      (s.timerInterval.Some? ==> s.timerInterval.value !in s'.timers) &&
      (s.breathTimeout.Some? ==> s.breathTimeout.value !in s'.timers) &&
      s'.guide == s.guide && s'.remainingSeconds == s.remainingSeconds &&
      (Inv(s) ==> Inv(s') && s'.timers == map[] && BreathTimers(s') == {})
  {
    FinishWf(s);
    if Inv(s) && s.isMeditating {
      var hi, hb := s.timerInterval.value, s.breathTimeout.value;
      assert Finish(s).timers.Keys == {hi, hb} - {hi} - {hb};
    }
  }

  /** A second `finishMeditation` changes nothing but one more silencing dispatch. */
  lemma FinishTwice(s: Session)
    ensures Finish(Finish(s)) == Finish(s).(haptics := Finish(s).haptics + [Silence])
  {
    var f := Finish(s);
    if f.timerInterval.Some? {
      assert f.timerInterval.value !in f.timers;
    }
    if f.breathTimeout.Some? {
      assert f.breathTimeout.value !in f.timers;
    }
    assert Finish(f).timers == f.timers;
  }

  /** The flag guard alone: a breathing callback that fires after the flag went off only
      leaves the pending set, with no text, dispatch or new timer. */
  lemma BreathCallbackGuarded(s: Session, h: nat)
    requires Wf(s) && !s.isMeditating && h in s.timers
    requires s.timers[h].callback.BeginPhase?
    ensures Fire(s, h) == s.(timers := s.timers - {h})
  {
  }

  /** In a stopped state satisfying Inv nothing the environment fires has any effect: no timer is pending, so any
      number of ticks or breathing events leaves the state as it is. */
  lemma {:induction false} StoppedIsInert(s: Session, h: nat, k: nat)
    requires Inv(s) && !s.isMeditating
    ensures Fire(s, h) == s
    ensures Ticks(s, h, k) == s && Breaths(s, k) == s
  {
    if k > 0 {
      StoppedIsInert(s, h, k - 1);
      if s.breathTimeout.Some? {
        assert Fire(s, s.breathTimeout.value) == s;
      }
    }
  }

  /** Every event the environment delivers keeps the invariant, in any order. */
  lemma FirePreservesInv(s: Session, h: nat)
    requires Inv(s)
    ensures Inv(Fire(s, h))
  {
    if s.isMeditating && h in s.timers {
      if h == s.timerInterval.value {
        TickAdvance(s);
      } else {
        PhaseAdvance(s);
      }
    }
  }

  /** The click handlers keep the invariant; `startMeditation` does when nothing is running. */
  lemma HandlersPreserveInv(s: Session)
    requires Inv(s)
    ensures Inv(AddTime(s)) && Inv(Reset(s)) && Inv(Finish(s))
    ensures !s.isMeditating ==> Inv(Start(s))
  {
    FinishStops(s);
    if !s.isMeditating {
      StartBeginsInhale(s);
    }
  }

  /** The meditation screen is shown exactly while the flag is on. */
  predicate ScreenAgrees(s: Session)
  {
    s.isMeditating <==> s.screen == Meditating
  }

  /** Every handler, pressed where its button lives (add-time and start on the setup screen,
      restart on the completion screen, stop on the meditation screen), and every fired timer
      keep the screen in step with the flag.  So the start button is only reachable while
      stopped, which is what `HandlersPreserveInv` needs for `Start`. */
  lemma ScreenTracksFlag(s: Session, h: nat)
    requires ScreenAgrees(s)
    ensures ScreenAgrees(Initial())
    ensures s.screen == Setup ==> !s.isMeditating && ScreenAgrees(AddTime(s)) && ScreenAgrees(Start(s))
    ensures s.screen == Finished ==> ScreenAgrees(Reset(s))
    ensures ScreenAgrees(Finish(s)) && ScreenAgrees(Fire(s, h))
  {
    if h in s.timers {
      var s1 := Take(s, h);
      assert ScreenAgrees(s1);
      match s.timers[h].callback
      case Tick =>
        var left := s1.remainingSeconds - 1;
        assert ScreenAgrees(s1.(remainingSeconds := left, displayed := Some(left)));
      case BeginPhase(ph) =>
    }
  }

  /** `startMeditation` has no guard: called while a session runs, it arms a second
      interval and a second breathing chain, leaving the first interval orphaned (its
      handle is no longer stored, so `finishMeditation` cannot clear it). */
  lemma DoubleStart(s: Session)
    requires Inv(s) && s.isMeditating
    ensures var s' := Start(s);
      |BreathTimers(s')| == 2 &&
      s.timerInterval.value in s'.timers && s'.timerInterval != s.timerInterval &&
      s.timerInterval.value in Finish(s').timers
  {
    StartFacts(s);
    var s' := Start(s);
    var hi, hb, nb := s.timerInterval.value, s.breathTimeout.value, s.nextHandle + 1;
    assert hb < s.nextHandle && hi < s.nextHandle;
    assert s'.timers == s.timers[s.nextHandle := INTERVAL_TIMER][nb := BreathTimer(Inhale)];
    assert BreathTimers(s') == {hb, nb};
  }

  /** One tick of a running session, as the countdown sees it. */
  lemma TickCounts(s: Session)
    requires Inv(s) && s.isMeditating
    ensures var s' := Fire(s, s.timerInterval.value);
      Inv(s') && s'.remainingSeconds == s.remainingSeconds - 1 &&
      (s'.isMeditating <==> s.remainingSeconds > 1) &&
      (s.remainingSeconds > 1 ==> s'.timerInterval == s.timerInterval) &&
      (s.remainingSeconds == 1 ==> s'.screen == Finished)
  {
    TickAdvance(s);
    if s.remainingSeconds == 1 {
      FinishStops(s.(remainingSeconds := 0, displayed := Some(0)));
    }
  }

  /** While a session runs, `k` ticks (k at most the remaining count) take `k` seconds off;
      the session stops exactly on the tick that brings the count to 0. */
  lemma {:induction false} TicksCount(s: Session, k: nat)
    requires Inv(s) && s.isMeditating && k <= s.remainingSeconds
    ensures var sk := Ticks(s, s.timerInterval.value, k);
      Inv(sk) && sk.remainingSeconds == s.remainingSeconds - k &&
      (sk.isMeditating <==> k < s.remainingSeconds) &&
      (k < s.remainingSeconds ==> sk.timerInterval == s.timerInterval) &&
      (k == s.remainingSeconds ==> sk.screen == Finished)
  {
    if k > 0 {
      var hi := s.timerInterval.value;
      TicksCount(s, k - 1);
      var p := Ticks(s, hi, k - 1);
      assert p.isMeditating && p.timerInterval == Some(hi);
      assert Ticks(s, hi, k) == Fire(p, hi);
      TickCounts(p);
    }
  }

  /** Without a manual stop, a session started with D minutes finishes on exactly the
      D * 60-th tick of its countdown and is still running after every earlier tick. */
  lemma FinishesOnExactTick(s: Session, k: nat)
    requires Inv(s) && !s.isMeditating
    ensures var s0 := Start(s);
      var sk := Ticks(s0, s0.timerInterval.value, k);
      (k < s.durationMinutes * 60 ==> sk.isMeditating && sk.remainingSeconds == s.durationMinutes * 60 - k) &&
      (k == s.durationMinutes * 60 ==> !sk.isMeditating && sk.screen == Finished && sk.remainingSeconds == 0)
  {
    StartBeginsInhale(s);
    if k <= s.durationMinutes * 60 {
      TicksCount(Start(s), k);
    }
  }

  /** One more phase entry appends its pattern to the dispatch log. */
  lemma BreathLogStep(h0: seq<Dispatch>, ph0: Phase, k: nat, hp: seq<Dispatch>, hq: seq<Dispatch>)
    requires k > 0 && hp == h0 + BreathLog(ph0, k - 1)
    requires hq == hp + [Pulse(Pattern(Advance(ph0, k)))]
    ensures hq == h0 + BreathLog(ph0, k)
  {
  }

  /** While a session runs, `k` breathing events walk the cycle: the phase is advanced `k`
      times, exactly the patterns of the phases entered are dispatched, in order, and the
      countdown is untouched. */
  lemma {:induction false} BreathsFollowCycle(s: Session, k: nat)
    requires Inv(s) && s.isMeditating
    ensures var sk := Breaths(s, k);
      var ph := Advance(CurrentPhase(s), k);
      Inv(sk) && sk.isMeditating && CurrentPhase(sk) == ph &&
      sk.guide == GuideText(ph) &&
      sk.timers[sk.breathTimeout.value].delay == Duration(ph) &&
      sk.haptics == s.haptics + BreathLog(CurrentPhase(s), k) &&
      sk.remainingSeconds == s.remainingSeconds && sk.timerInterval == s.timerInterval
  {
    if k > 0 {
      BreathsFollowCycle(s, k - 1);
      var p := Breaths(s, k - 1);
      assert Breaths(s, k) == Fire(p, p.breathTimeout.value);
      BreathStep(s, p, CurrentPhase(s), k);
    }
  }

  /** The inductive step of BreathsFollowCycle: one more breathing event after k - 1. */
  lemma BreathStep(s: Session, p: Session, ph0: Phase, k: nat)
    requires k > 0 && Inv(p) && p.isMeditating && CurrentPhase(p) == Advance(ph0, k - 1)
    requires p.haptics == s.haptics + BreathLog(ph0, k - 1)
    requires p.remainingSeconds == s.remainingSeconds && p.timerInterval == s.timerInterval
    ensures var q := Fire(p, p.breathTimeout.value);
      var ph := Advance(ph0, k);
      Inv(q) && q.isMeditating && CurrentPhase(q) == ph &&
      q.guide == GuideText(ph) &&
      q.timers[q.breathTimeout.value].delay == Duration(ph) &&
      q.haptics == s.haptics + BreathLog(ph0, k) &&
      q.remainingSeconds == s.remainingSeconds && q.timerInterval == s.timerInterval
  {
    var q := Fire(p, p.breathTimeout.value);
    PhaseAdvance(p);
    BreathLogStep(s.haptics, ph0, k, p.haptics, q.haptics);
  }

  /** Entry `i` of the dispatch log is the pattern of the phase `(i + 1) % 3` steps after `ph`. */
  lemma BreathLogEntry(ph: Phase, k: nat, i: nat)
    requires i < k
    ensures BreathLog(ph, k)[i] == Pulse(Pattern(Advance(ph, (i + 1) % 3)))
  {
    AdvancePeriodic(ph, i + 1);
  }

  /** The dispatch log repeats with period three: every entry recurs three entries later. */
  lemma BreathLogPeriodic(ph: Phase, k: nat)
    ensures forall i :: 0 <= i && i + 3 < k ==> BreathLog(ph, k)[i] == BreathLog(ph, k)[i + 3]
  {
    forall i | 0 <= i && i + 3 < k
      ensures BreathLog(ph, k)[i] == BreathLog(ph, k)[i + 3]
    {
      BreathLogRecurs(ph, k, i);
    }
  }

  /** Entry `i` of the dispatch log recurs at `i + 3`. */
  lemma BreathLogRecurs(ph: Phase, k: nat, i: nat)
    requires i + 3 < k
    ensures BreathLog(ph, k)[i] == BreathLog(ph, k)[i + 3]
  {
    BreathLogEntry(ph, k, i);
    BreathLogEntry(ph, k, i + 3);
    assert (i + 3 + 1) % 3 == (i + 1) % 3;
  }

  /** Left running, a session started from the setup screen guides the cycles in the order
      inhale, hold, exhale, again and again: after the first inhale, the `k`-th phase entered
      is `Advance(Inhale, k % 3)`, and the dispatches are exactly the patterns of the phases
      entered, in order (BreathLogPeriodic). */
  lemma CycleOrder(s: Session, k: nat)
    requires Inv(s) && !s.isMeditating
    ensures var sk := Breaths(Start(s), k);
      Inv(sk) && sk.isMeditating &&
      sk.haptics == s.haptics + [Pulse(Pattern(Inhale))] + BreathLog(Inhale, k) &&
      CurrentPhase(sk) == Advance(Inhale, k % 3) && sk.guide == GuideText(Advance(Inhale, k % 3))
  {
    var s0 := Start(s);
    StartBeginsInhale(s);
    BreathsFollowCycle(s0, k);
    AdvancePeriodic(Inhale, k);
  }
}
