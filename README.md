# Pomodoro timer: a verified model

This project models the timer of the GDG Pomodoro page (`src/js/main.js`).
The page keeps one `state` record: the current mode (focus, short break or
long break), the seconds left, whether the countdown runs, and the handle of
the one-second interval that drives it. Three buttons change that record in
place: a mode button (`switchMode`), play/pause (`toggleTimer`) and reset
(`resetTimer`). While the timer runs, the interval callback takes a second
off. When it finds nothing left, it stops the timer and switches focus to a
short break, or either break back to focus. After every change `updateUI`
paints the view from the state: the "M:SS" text, the progress ring, the
play/pause icon, the highlighted mode button and a label.

Modules:

- `Config` (`config.dfy`): the modes, the duration table (1500 / 300 / 900
  seconds), the `data-mode` names, and the automatic next mode.
- `TimeFormat` (`time_format.dfy`): the "M:SS" text and a parser for it. The
  parser shows that the text loses nothing.
- `Transitions` (`transitions.dfy`): the state as a value, the invariant, and
  one function per state change. These are the specification of the class.
- `Display` (`display.dfy`): the values `updateUI` computes from the state.
- `Timer` (`timer.dfy`): the class `Timer.Timer`. Its fields are assigned in
  place by its methods, as the script does. Each method is proved to leave
  exactly the state the matching `Transitions` function gives.

The interval is abstract. The class holds the handle as an `Option<nat>`. Two
more fields stand for the browser's side: the set of interval ids it is firing
(`liveIntervals`) and the next id `setInterval` hands out. `SetInterval` and
`ClearInterval` change only those two fields. The host calls `Tick` only while
a handle is held. `Valid()` says that the host fires exactly the interval
whose handle the state holds. So at most one interval is ever live, and one
is live exactly while the timer runs.

Details of the script worth knowing:

- A tick at zero goes from focus to a short break and from any break to
  focus. A long break is reached only through its button.
- The countdown visibly reaches 0. The callback fires once more before the
  mode switches, so a session takes `timeLeft + 1` firings (`SessionEnds`).
- Reset keeps the current mode.
- The minutes are not zero-padded: 300 seconds shows as "5:00".
- `switchMode` itself clears a running interval.

## Model

| member | source | states |
|---|---|---|
| `Config.Duration` | src/js/main.js:18-22 | every session length is positive and a whole number of minutes |
| `Config.ModeNameRoundTrip` | src/js/main.js:18-22 | the `data-mode` names and the modes are in one-to-one correspondence: parsing a mode's name gives that mode, and only its own name parses to it |
| `Config.ModeNameInjective` | src/js/main.js:92-94 | distinct modes have distinct names, so comparing a button's name with the state's mode identifies the mode |
| `Config.NextMode` | src/js/main.js:160 | the automatic switch always changes the mode, never picks a long break, and lands on focus exactly when leaving a break |
| `TimeFormat.Decimal` | src/js/main.js:81 | an integer's text is a non-empty run of digits with no leading zero except for 0 itself |
| `TimeFormat.PadStart` | src/js/main.js:81 | padding gives the target width, or the original length if that is longer; the original text is at the end, and only filler is in front of it |
| `TimeFormat.ParseDecimalOfDecimal` | src/js/main.js:81 | reading back an integer's decimal text gives the integer |
| `TimeFormat.TwoDigitSeconds` | src/js/main.js:79-81 | the seconds field is always exactly two digits, and they read back as the seconds |
| `TimeFormat.FormatTimeFields` | src/js/main.js:78-81 | the display is the minutes in decimal, a colon, then two digits for the seconds in 0..59; minutes * 60 + seconds equals the time left |
| `TimeFormat.FormatTimeRoundTrip` | src/js/main.js:78-81 | parsing the displayed text gives back the exact number of seconds |
| `TimeFormat.FormatTimeInjective` | src/js/main.js:78-81 | different times never show the same text |
| `TimeFormat.FormatDurationExamples` | src/js/main.js:78-81 | full sessions show "25:00", "15:00" and "5:00" (minutes unpadded) |
| `TimeFormat.FormatEdgeExamples` | src/js/main.js:78-81 | 0 shows "0:00", 59 shows "0:59", and 3661 shows "61:01" (minutes not capped) |
| `Transitions.InitialInv` | src/js/main.js:31-37 | the page starts in focus with 1500 seconds, stopped, with no interval, and the invariant holds |
| `Transitions.SwitchModeSpec` | src/js/main.js:122-131 | after a mode switch the mode is the chosen one, its full duration (1500 / 300 / 900) is loaded, the timer is stopped, no handle is held, and the invariant holds |
| `Transitions.ToggleSpec` | src/js/main.js:139-163 | play/pause flips the running flag, never changes the mode or the time left, takes a new handle only when starting and only when none was held, releases it when pausing, and keeps the invariant |
| `Transitions.ToggleTwiceRestores` | src/js/main.js:139-163 | pausing right after starting restores the state from before the start |
| `Transitions.ResetSpec` | src/js/main.js:171-175 | reset keeps the mode, restores its full duration, stops the timer, releases the handle, and keeps the invariant |
| `Transitions.TickCountsDown` | src/js/main.js:152-154 | a tick with time left takes off exactly one second; mode, running flag and handle are unchanged |
| `Transitions.TickAtZero` | src/js/main.js:155-161 | a tick at zero stops the timer, releases the handle, goes from focus to a short break or from a break to focus, and loads the new mode's full duration |
| `Transitions.StepsPreserveInv` | src/js/main.js:122-175 | each of switchMode, toggleTimer, resetTimer and the tick keeps 0 <= timeLeft <= duration(mode) and "running exactly when a handle is held" |
| `Transitions.TickNeverEntersLongBreak` | src/js/main.js:160 | a tick ends in a long break only if it started in one with time left |
| `Transitions.TicksWithinSession` | src/js/main.js:151-154 | k ticks within a session take off exactly k seconds and change nothing else |
| `Transitions.SessionEnds` | src/js/main.js:151-162 | a running session shows 0 after timeLeft ticks, still in its mode, and one more tick loads the next mode, stopped |
| `Transitions.TicksSplit` | src/js/main.js:151 | j + k firings of the interval are j firings followed by k firings |
| `Display.ActiveFlags` | src/js/main.js:92-99 | one flag per button; a button is highlighted exactly when its `data-mode` value is the current mode's name |
| `Display.ActiveCountIsOccurrences` | src/js/main.js:92-99 | the number of highlighted buttons equals the number of buttons carrying the current mode's name |
| `Display.ExactlyOneActive` | src/js/main.js:92-99 | on a page with one button per mode, exactly one button is highlighted |
| `Display.ProgressBounds` | src/js/main.js:84-85 | under the invariant the ring value is in [0, 1], is 0 exactly at a full session, and is 1 exactly when no time is left |
| `Display.ProgressZeroAfterSwitchOrReset` | src/js/main.js:84-85 | right after a mode switch or a reset the ring value is 0 |
| `Display.ProgressStepOnTick` | src/js/main.js:84-85 | a tick with time left keeps the mode and raises the ring value by exactly 1 / duration(mode) |
| `Display.ProgressMonotoneInSession` | src/js/main.js:84-85 | across the ticks of one session the mode stays and the ring value never decreases |
| `Display.IconShowsRunning` | src/js/main.js:89 | the button shows "pause" exactly while an interval handle is held, and "play_arrow" exactly while none is |
| `Display.LabelCases` | src/js/main.js:112-116 | "Go go go!" exactly for a running focus session, "Ready to focus?" exactly for a stopped one, "Take a breather" exactly in a break |
| `Display.ViewDeterminesState` | src/js/main.js:76-117 | two valid states that paint the same view agree on mode, time left and running flag, when the page has a button for each of their modes |
| `Timer.Timer.constructor` | src/js/main.js:31-37 | the object starts in the initial state, with no interval live |
| `Timer.Timer.SetInterval` | src/js/main.js:151 | the host hands out an id not yet live, fires it from then on, and moves its next id up by one |
| `Timer.Timer.ClearInterval` | src/js/main.js:173 | the host stops firing the given id; clearing null does nothing |
| `Timer.Timer.SwitchMode` | src/js/main.js:122-134 | the new state is `Transitions.SwitchMode(newMode)`, no interval is live, and `Valid()` holds |
| `Timer.Timer.ToggleTimer` | src/js/main.js:139-166 | the new state is `Transitions.Toggle` of the old one with the id the host hands out; the only live interval is the new one when started, none when paused; the host's next id moves up by one only when starting |
| `Timer.Timer.ResetTimer` | src/js/main.js:171-177 | the new state is `Transitions.Reset` of the old one, no interval is live, and `Valid()` holds |
| `Timer.Timer.Tick` | src/js/main.js:151-162 | the new state is `Transitions.Tick` of the old one; the interval stays live while time was left and is cleared at zero |
| `Timer.Timer.AtMostOneLive` | src/js/main.js:31-37 | in a valid object at most one interval is live, and one is live exactly while the timer runs |

## Left out

- Painting the page: element lookup, `textContent`, `style`, `classList`, the CSS
  variable, and the event-listener wiring. The model keeps the values these
  writes use (`Display.Render`), not the writes.
- Real timing: `setInterval` and `clearInterval` become the id registry in
  `Timer.Timer`. The host's once-a-second firing becomes calls of `Tick` made
  only while a handle is held. Callbacks run one at a time, so there is no
  concurrency to model.
- The `alert("Time is up!")` in the tick at zero. It is a blocking dialog with
  no effect on the state.
- The theme colour table and the colour write in `updateUI`. They are a fixed
  lookup that paints only.
- The task list (`addTask`, `toggleTask`, `deleteTask`, `renderTasks` and their
  listeners). It is commented out in the script, so it never runs.
- Unknown `data-mode` strings: `Mode` has only the three modes. In the
  script, an unknown name would load `undefined` as the duration.
  `Config.ParseMode` shows which strings name a mode.
- Display.Progress: uses exact real division, not IEEE floating point.
- Display.Render: requires the invariant, because the time text is defined
  only for a non-negative number of seconds; every reachable state meets it.
