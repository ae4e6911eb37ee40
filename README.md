# Cat meditation timer: a Dafny model of its session logic

The page lets the user choose a session length (5 minutes, plus one minute per click on
"add time"). On start it shows a countdown in `mm:ss` and guides the breathing in a 4-7-8
cycle:

- inhale for 4 s, hold for 7 s, exhale for 8 s, then again;
- each phase shows a guidance text ("吸って...", "止めて...", "吐いて...");
- each phase sends one vibration pattern whose on/off durations add up to the phase's length.

When the countdown reaches zero, or the user presses stop, the session finishes. Both
timers are cancelled, the motor is silenced and the completion screen is shown.

The model has five modules:

- `Breath`: the three phases, their durations and guidance texts, and their vibration
  patterns.
  - The three pattern-building loops are methods proved to produce those patterns.
  - Lemmas give each pattern's length, entries and sum.
- `Display`: the countdown text. JavaScript's `Math.floor(r / 60)`, its truncating `%`,
  `String(n)` and `padStart(2, '0')` are written out for integer counts. Lemmas give the `mm:ss` shape
  and the round trip from text back to seconds.
- `SessionModel`: the page's state as a value, `Session`.
  - Every handler and timer callback is a function on it.
  - Pending timers are explicit, a map from handle to what the timer will run. The
    environment fires them with `Fire`.
  - The invariant `Inv` says that a running session has exactly the countdown interval and
    one breathing timer pending, and that a stopped session has none.
  - Lemmas cover:
    - the phase order;
    - at most one pending breathing timer;
    - no effect after a stop;
    - the exact tick on which the session ends;
    - the behaviour of a second start.
- `App`: class `MeditationApp`, the script's module-level variables as fields.
  - Each handler and callback is a method that performs the script's steps in place.
  - Each method is proved to end in the state that the matching `SessionModel` function
    computes.
  - Every method keeps the shown countdown text equal to the rendering of the count it was
    last rendered from.
- `Options`: `Option`, standing in for a variable that may hold `null`.

## Model

| member | source | states |
|---|---|---|
| Breath.Duration | script.js:23-25 | no contract; defines each phase's length, also the delay of the timer armed when it begins (sum and pattern fit in `PatternFitsPhase`) |
| Breath.Next | script.js:81-111 | no contract; defines the phase order inhale, hold, exhale, inhale (period three in `AdvancePeriodic`) |
| Breath.GuideText | script.js:71-96 | no contract; defines the three guidance texts (pairwise distinct in `PhasesDistinguishable`) |
| Breath.Pattern | script.js:74-103 | no contract; defines each phase's vibration pattern (built by the `Build…Pattern` loops, shape in the `…PatternShape` lemmas) |
| Breath.BuildInhalePattern | script.js:74-77 | the loop's 16 pushes of (200, 50) build exactly the inhale pattern: 32 entries summing to INHALE_TIME |
| Breath.BuildHoldPattern | script.js:87-90 | the loop's 7 pushes of (500, 500) build exactly the hold pattern: 14 entries summing to HOLD_TIME |
| Breath.BuildExhalePattern | script.js:100-103 | the loop's 8 pushes of (150, 50, 150, 650) build exactly the exhale pattern: 32 entries summing to EXHALE_TIME |
| Breath.PatternIsRepeat | script.js:74-103 | each phase's pattern is its unit pushed `Repetitions` times, one copy after another |
| Breath.InhalePatternShape | script.js:74-77 | 32 entries alternating 200 (on) and 50 (off), starting with on, summing to 4000 |
| Breath.HoldPatternShape | script.js:87-90 | 14 entries, every one 500, summing to 7000 |
| Breath.ExhalePatternShape | script.js:100-103 | entry i is [150, 50, 150, 650][i % 4], 32 entries, summing to 8000 |
| Breath.PatternFitsPhase | script.js:23-25 | every pattern is a well-formed on/off list (even length, starts with a positive on, no negative entry) whose sum is its phase's duration constant |
| Breath.PhasesDistinguishable | script.js:67-116 | no two phases share a pattern or a guidance text |
| Breath.AdvancePeriodic | script.js:23-26 | the phase order has period three, and one cycle of durations adds up to CYCLE_TOTAL |
| Display.FloorDiv | script.js:62 | no contract; defines `Math.floor(a / b)` for a positive divisor (bracketing in `DivisionFacts`) |
| Display.JsRemainder | script.js:63 | no contract; defines JavaScript's truncating `%` (range and agreement with `%` in `DivisionFacts`) |
| Display.NatText | script.js:64 | no contract; defines `String(n)` for n >= 0 (digits in `NatTextDigits`, value in `NatTextValue`) |
| Display.IntText | script.js:64 | no contract; defines `String(i)` for any integer, with a leading '-' when negative (used by `NegativeCountdown`) |
| Display.PadStart2 | script.js:64 | no contract; defines `padStart(2, '0')` (facts in `PadStart2Facts`) |
| Display.CountdownText | script.js:61-65 | no contract; defines the shown text from the count (shape in `CountdownShape`, round trip in `CountdownRoundTrip`) |
| Display.NatTextDigits | script.js:64 | `String(n)` of a non-negative number is a non-empty string of digits that starts with '0' only for 0 |
| Display.NatTextValue | script.js:64 | reading `String(n)` back as a decimal numeral gives n |
| Display.DivisionFacts | script.js:62-63 | JavaScript's `%` by 60 lies strictly between -60 and 60 and agrees with the mathematical remainder for non-negative counts; `Math.floor` division brackets the count |
| Display.PadStart2Facts | script.js:64 | `padStart(2, '0')` yields max(2, length) characters, ends with its argument and adds only '0's, so it never truncates |
| Display.PaddedValue | script.js:64 | a padded numeral is still digits and denotes the same number |
| Display.CountdownParts | script.js:61-65 | for a non-negative count the text is pad2(count / 60) + ":" + pad2(count % 60) |
| Display.JoinedShape | script.js:64 | two padded numerals joined by ':' have the colon three from the end, digits on both sides, and the parts denote the two numbers |
| Display.CountdownShape | script.js:61-65 | for a non-negative count the text is "mm:ss": seconds are exactly two digits denoting count % 60 < 60, minutes denote count / 60, minutes * 60 + seconds == count, and the text has 5 characters below 100 minutes |
| Display.CountdownRoundTrip | script.js:61-65 | reading the shown text back gives the remaining seconds |
| Display.NegativeCountdown | script.js:62-64 | a count of -1 is shown as "-1:-1" (floor division, truncating remainder), which is not of the "mm:ss" shape |
| SessionModel.Initial | script.js:16-20 | no contract; defines the state at load (invariant in `InitialInv`) |
| SessionModel.AddTime | script.js:29-32 | no contract; defines the add-time handler (in `DurationOnlyGrows`, `HandlersPreserveInv`) |
| SessionModel.BeginSession | script.js:38-56 | no contract; defines start up to the breathing cycle: screen, count, display, interval, flag (in `StartFacts`) |
| SessionModel.Start | script.js:38-59 | no contract; defines `startMeditation` (in `StartFacts`, `StartBeginsInhale`, `DoubleStart`) |
| SessionModel.EnterPhase | script.js:71-81 | no contract; defines the effects of entering a phase: text, one dispatch, one timer stored in `breathTimeout` (in `EnterPhaseRunning`, `PhaseAdvance`) |
| SessionModel.RunBreathCycle | script.js:67-81 | no contract; defines `runBreathCycle` with its flag guard (in `StartBeginsInhale`) |
| SessionModel.RunCallback | script.js:47-111 | no contract; defines what each timer's callback does, guards included (in `PhaseAdvance`, `BreathCallbackGuarded`, `TickAdvance`) |
| SessionModel.TickStep | script.js:47-53 | no contract; defines the interval's body (in `TickAdvance`, `TicksCount`) |
| SessionModel.Finish | script.js:125-139 | no contract; defines `finishMeditation` (in `FinishStops`, `FinishTwice`) |
| SessionModel.Reset | script.js:141-144 | no contract; defines `resetApp` (in `HandlersPreserveInv`, `DurationOnlyGrows`) |
| SessionModel.Clear | script.js:127-128 | no contract; defines `clearInterval` / `clearTimeout` on the pending timers, null clearing nothing (in `FinishStops`) |
| SessionModel.Take | script.js:47-115 | no contract; defines the browser taking a timer off its pending list before running it: one-shot timers go, the interval stays (in `FireInterval`, `BreathCallbackGuarded`) |
| SessionModel.Fire | script.js:47-115 | no contract; defines the environment firing a pending handle (in `FirePreservesInv`, `WfPreserved`, `StoppedIsInert`) |
| SessionModel.BreathLog | script.js:78 | the dispatches of k phase entries after a phase: entry i is the pattern of the phase i + 1 steps on |
| SessionModel.InitialInv | script.js:16-20 | at load: 5 minutes, not meditating, no timers, no dispatch, setup screen; the invariant holds |
| SessionModel.StartFacts | script.js:38-59 | what `startMeditation` leaves in every field: the interval and the inhale timer under two fresh handles, the countdown set to minutes * 60 and shown, the flag on, the inhale text and pattern |
| SessionModel.WfPreserved | script.js:16-20 | every handler and every fired timer, in any order (a second start included), keeps the duration at least 5, handles fresh and breathing timers one-shot |
| SessionModel.DurationOnlyGrows | script.js:29-32 | add-time adds exactly one minute; start, finish, reset and every timer leave the duration unchanged, so it never decreases |
| SessionModel.AtMostOneBreathTimer | script.js:81-115 | in every state satisfying `Inv` (reachable from load when start is pressed only while stopped, which `ScreenTracksFlag` shows the page's buttons ensure) at most one breathing timer is pending: the stored one while meditating, none when stopped |
| SessionModel.EnterPhaseRunning | script.js:67-116 | entering a phase while only the interval is pending gives a running session in that phase |
| SessionModel.StartBeginsInhale | script.js:38-59 | starting from a stopped session yields a running session in the inhale phase, with exactly the inhale pattern dispatched and the hold phase armed after 4000 ms |
| SessionModel.PhaseAdvance | script.js:81-115 | firing the pending breathing timer enters the next phase: its text, exactly one dispatch of its pattern, one new timer with its duration; countdown, screen and interval untouched |
| SessionModel.FireInterval | script.js:47-53 | firing the countdown interval runs the tick body and leaves the interval pending |
| SessionModel.TickContinues | script.js:48-50 | a tick that leaves time changes only the count, down by one, and its display |
| SessionModel.TickFinishes | script.js:50-52 | the tick that brings the count to 0 finishes the session and leaves it stopped |
| SessionModel.TickAdvance | script.js:47-53 | a tick takes exactly one second off and shows it; the session stays running exactly while the count is positive |
| SessionModel.FinishStops | script.js:125-139 | after finishing: flag off, both stored timers cancelled, one silencing dispatch, completion screen, text and count kept; from a state satisfying `Inv` no timer at all is pending |
| SessionModel.FinishTwice | script.js:125-139 | a second finish changes nothing but one more silencing dispatch |
| SessionModel.BreathCallbackGuarded | script.js:81-115 | a breathing callback that fires after the flag went off only leaves the pending set: no text, dispatch or new timer |
| SessionModel.StoppedIsInert | script.js:125-128 | in a stopped state satisfying `Inv` (reachable when start is pressed only while stopped, see `ScreenTracksFlag`) no timer is pending, so any number of ticks or breathing events changes nothing |
| SessionModel.FirePreservesInv | script.js:47-115 | every timer the environment fires keeps the invariant |
| SessionModel.HandlersPreserveInv | script.js:29-59 | add-time, reset and finish keep the invariant; start keeps it when nothing is running |
| SessionModel.ScreenAgrees | script.js:40-41 | no contract; defines "the meditation screen is shown exactly while the flag is on" (kept by `ScreenTracksFlag`) |
| SessionModel.ScreenTracksFlag | script.js:34-59 | at load and after every handler pressed on its own screen (add-time and start on setup, restart on completion, stop) and every fired timer, the meditation screen is shown exactly while the flag is on; so when the start button is visible the session is stopped |
| SessionModel.DoubleStart | script.js:38-59 | a start while running leaves two breathing timers pending and orphans the first interval, which a later finish does not cancel |
| SessionModel.TickCounts | script.js:47-53 | one tick of a running session: count down by one, still running iff the count was above 1, completion screen when it was 1 |
| SessionModel.TicksCount | script.js:44-53 | k ticks take k seconds off; the session stops exactly on the tick that brings the count to 0 |
| SessionModel.FinishesOnExactTick | script.js:44-53 | without a manual stop, a session started with D minutes finishes on exactly the D * 60-th tick and is running after every earlier tick |
| SessionModel.BreathsFollowCycle | script.js:67-116 | k breathing events advance the phase k times, dispatching exactly the entered phases' patterns in order, with each new timer's delay the phase's duration, countdown untouched |
| SessionModel.BreathLogEntry | script.js:67-116 | entry i of the dispatch log is the pattern of the phase (i + 1) % 3 steps on |
| SessionModel.BreathLogPeriodic | script.js:67-116 | the dispatch log repeats with period three: every entry recurs three entries later |
| SessionModel.CycleOrder | script.js:67-116 | left running, a started session goes inhale, hold, exhale, inhale, ...: after k breathing events the phase and text are those of step k % 3, and the dispatches are the inhale pattern followed by the patterns of the entered phases |
| App.MeditationApp.constructor | script.js:16-20 | the fields start in the initial state, which satisfies the invariant |
| App.MeditationApp.Schedule | script.js:81 | `setTimeout` / `setInterval` registers the timer under a fresh handle and changes nothing else |
| App.MeditationApp.ClearTimer | script.js:127-128 | `clearInterval` / `clearTimeout` removes the handle, and a null handle removes nothing |
| App.MeditationApp.VibratePattern | script.js:118-123 | one dispatch of the pattern is appended |
| App.MeditationApp.AddTime | script.js:29-32 | the duration grows by one minute, and the invariant is kept |
| App.MeditationApp.UpdateCountdownDisplay | script.js:61-65 | the shown text is the rendering of the current count, and nothing else changes |
| App.MeditationApp.StartMeditation | script.js:38-59 | the fields end in `Start` of the old state and the text shows the new count; the invariant holds afterwards when nothing was running |
| App.MeditationApp.RunBreathCycle | script.js:67-81 | the inhale phase as `SessionModel.RunBreathCycle`, doing nothing when the flag is off |
| App.MeditationApp.HoldCallback | script.js:81-94 | the hold phase, guarded by the flag |
| App.MeditationApp.ExhaleCallback | script.js:94-107 | the exhale phase, guarded by the flag |
| App.MeditationApp.NextCycleCallback | script.js:107-111 | the next cycle, started only when the flag is on |
| App.MeditationApp.TickCallback | script.js:47-53 | the tick body as `TickStep`, with the text showing the decremented count |
| App.MeditationApp.FinishMeditation | script.js:125-139 | the fields end in `Finish` of the old state, and from a state satisfying `Inv` no timer is left pending |
| App.MeditationApp.ResetApp | script.js:141-144 | back to the setup screen, nothing else changed |
| App.MeditationApp.RunTimerCallback | script.js:47-111 | a timer's callback, dispatched on what the timer carries, ends in `RunCallback` of the old state |
| App.MeditationApp.Fire | script.js:47-115 | a fired timer ends in `SessionModel.Fire` of the old state, keeps the text in step with the count, and keeps the invariant |

## Left out

- Screen switching is reduced to one enum (`Setup`, `Meditating`, `Finished`) instead of the
  `active` class on three elements. The `breathing` class, the cat image and the DOM lookups
  are presentation only.
- The number shown on the setup screen after add-time (`displayTime`) is not modelled. It
  is a plain rendering of `durationMinutes`.
- The page's initial guidance and countdown texts come from index.html, which is not part
  of this model. The model starts them as the empty string and, for the countdown, records
  that no count has been rendered yet.
- Real time and the event loop are left out. Timers are pending records that the
  environment fires in any order, one callback at a time. The delay is recorded on each
  timer but not used to order events.
- The `navigator.vibrate` feature check and the motor are left out. Each call is one entry
  appended to a dispatch log, and `vibrate(0)` is the entry `Silence`.
- Event-listener wiring is left out. Each handler is a method called directly.
- App.MeditationApp.StartMeditation: the invariant is promised only when no session is
  running. The script does not guard against a second start (`DoubleStart` shows what
  happens then).
- SessionModel.AtMostOneBreathTimer: promised only in states satisfying `Inv`. A start
  pressed while a session runs (not possible through the page's buttons: the start button
  is on the setup screen, which `ScreenTracksFlag` shows is never up while running) leaves two breathing timers pending (`DoubleStart`).
- SessionModel.StoppedIsInert: promised only in stopped states satisfying `Inv`. After a
  start pressed while running, the orphaned interval survives `Finish` and keeps ticking on
  the completion screen. Each tick takes one second off and shows it. After a manual stop
  at a positive count it first counts down through positive values. Once the count is at
  or below zero, each tick also finishes again: it makes one more silencing dispatch and
  shows a negative count ("-1:-1", "-1:-2", ...).
- Counts, minutes and handles are unbounded integers. JavaScript numbers are doubles:
  integers lose precision above 2^53, `durationMinutes++` stops changing there, and
  `String` switches to exponent notation at 10^21. None of this is reachable by clicking,
  and the model does not capture it.
- Display.CountdownShape: stated for non-negative counts only. A negative count is reachable
  only after a second start, and its rendering is given by `NegativeCountdown`.
