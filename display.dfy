/** The values the page paints from the state on every update: the time text,
    the progress ring, the play/pause icon, which mode button is highlighted
    and the label under the timer. Only the values are modelled, not the
    writes to the page. */
module Display {
  import opened Config
  import opened TimeFormat
  import opened Transitions

  /** Fraction of the current session already elapsed; it drives the ring. */
  function Progress(s: TimerState): real {
    1.0 - (s.timeLeft as real) / (Duration(s.mode) as real)
  }

  /** Name of the icon on the play/pause button. */
  function ToggleIcon(isRunning: bool): string {
    if isRunning then "pause" else "play_arrow"
  }

  /** For each mode button, in page order, whether it is highlighted: exactly
      when its `data-mode` value is the name of the current mode. */
  function ActiveFlags(buttons: seq<string>, mode: Mode): (flags: seq<bool>)
    ensures |flags| == |buttons|
    ensures forall i :: 0 <= i < |buttons| ==> (flags[i] <==> buttons[i] == ModeName(mode))
  {
    if buttons == [] then []
    else [buttons[0] == ModeName(mode)] + ActiveFlags(buttons[1..], mode)
  }

  /** The text under the timer. */
  function Label(mode: Mode, isRunning: bool): string {
    if mode == Focus then (if isRunning then "Go go go!" else "Ready to focus?")
    else "Take a breather"
  }

  /** Everything one update paints. */
  datatype View = View(
    time: string,
    progress: real,
    icon: string,
    activeButtons: seq<bool>,
    timerLabel: string)

  function Render(s: TimerState, buttons: seq<string>): View
    requires Inv(s)
  {
    View(FormatTime(s.timeLeft), Progress(s), ToggleIcon(s.isRunning),
         ActiveFlags(buttons, s.mode), Label(s.mode, s.isRunning))
  }

  /** The ring shows a fraction in [0, 1]: 0 exactly at a full session and 1
      exactly when nothing is left. */
  lemma ProgressBounds(s: TimerState)
    requires Inv(s)
    ensures 0.0 <= Progress(s) <= 1.0
    ensures Progress(s) == 0.0 <==> s.timeLeft == Duration(s.mode)
    ensures Progress(s) == 1.0 <==> s.timeLeft == 0
  {

  }

  /** Right after a mode switch or a reset the ring is empty. */
  lemma ProgressZeroAfterSwitchOrReset(s: TimerState, m: Mode)
    ensures Progress(SwitchMode(m)) == 0.0
    ensures Progress(Reset(s)) == 0.0
  {
  }

  /** A tick with time left keeps the mode and adds exactly one second's share
      of the session to the ring. */
  lemma ProgressStepOnTick(s: TimerState)
    requires Inv(s) && s.timeLeft > 0
    ensures Tick(s).mode == s.mode
    ensures Progress(Tick(s)) == Progress(s) + 1.0 / (Duration(s.mode) as real)
  {

  }

  /** Over the ticks of one session the ring never goes back. */
  lemma ProgressMonotoneInSession(s: TimerState, j: nat, k: nat)
    requires Inv(s) && j <= k <= s.timeLeft
    ensures Ticks(s, j).mode == Ticks(s, k).mode == s.mode
    ensures Progress(Ticks(s, j)) <= Progress(Ticks(s, k))
  {
    TicksWithinSession(s, j);
    TicksWithinSession(s, k);
    var d := Duration(s.mode) as real;
    QuotientMonotone((s.timeLeft - k) as real, (s.timeLeft - j) as real, d);
  }

  lemma QuotientMonotone(a: real, b: real, d: real)
    requires 0.0 < d && a <= b
    ensures a / d <= b / d
  {

  }

  /** The icon shows "pause" exactly while an interval is live. */
  lemma IconShowsRunning(s: TimerState)
    requires Inv(s)
    ensures ToggleIcon(s.isRunning) == "pause" <==> s.timerInterval.Some?
    ensures ToggleIcon(s.isRunning) == "play_arrow" <==> s.timerInterval.None?
  {
  }

  /** The label: "Go go go!" only for a running focus session, "Ready to
      focus?" for a stopped one, "Take a breather" in either break whether
      running or not. */
  lemma LabelCases(m: Mode, running: bool)
    ensures Label(m, running) == "Go go go!" <==> m == Focus && running
    ensures Label(m, running) == "Ready to focus?" <==> m == Focus && !running
    ensures Label(m, running) == "Take a breather" <==> m != Focus
  {
  }

  function CountTrue(flags: seq<bool>): nat {
    if flags == [] then 0 else (if flags[0] then 1 else 0) + CountTrue(flags[1..])
  }

  function Occurrences(buttons: seq<string>, name: string): nat {
    if buttons == [] then 0
    else (if buttons[0] == name then 1 else 0) + Occurrences(buttons[1..], name)
  }

  lemma {:induction false} ActiveCountIsOccurrences(buttons: seq<string>, m: Mode)
    ensures CountTrue(ActiveFlags(buttons, m)) == Occurrences(buttons, ModeName(m))
    decreases |buttons|
  {
    if buttons != [] {
      ActiveCountIsOccurrences(buttons[1..], m);
      assert ActiveFlags(buttons, m)[1..] == ActiveFlags(buttons[1..], m);
    }
  }

  /** When the page has one button per mode, exactly one is highlighted. */
  lemma ExactlyOneActive(buttons: seq<string>, m: Mode)
    requires forall mode: Mode :: Occurrences(buttons, ModeName(mode)) == 1
    ensures CountTrue(ActiveFlags(buttons, m)) == 1
  {
    ActiveCountIsOccurrences(buttons, m);
  }

  /** The painted view is faithful: two states that paint the same view
      (on a page with a button for each of their modes) agree on the mode, the
      seconds left and whether the timer runs. */
  lemma ViewDeterminesState(s1: TimerState, s2: TimerState, buttons: seq<string>)
    requires Inv(s1) && Inv(s2)
    requires ModeName(s1.mode) in buttons && ModeName(s2.mode) in buttons
    requires Render(s1, buttons) == Render(s2, buttons)
    ensures s1.mode == s2.mode && s1.timeLeft == s2.timeLeft && s1.isRunning == s2.isRunning
  {
    FormatTimeInjective(s1.timeLeft, s2.timeLeft);
    var i :| 0 <= i < |buttons| && buttons[i] == ModeName(s1.mode);
    assert ActiveFlags(buttons, s1.mode)[i];
    assert ActiveFlags(buttons, s2.mode)[i];
    ModeNameInjective(s1.mode, s2.mode);
  }
}
