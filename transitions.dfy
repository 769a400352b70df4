/** The timer's state as a value and the four ways the page changes it. These
    functions are the specification that the methods of `Timer.Timer` are
    proved against; the lemmas state what each step promises. */
module Transitions {
  import opened Optional
  import opened Config

  /** The `state` record: current mode, seconds left, whether the countdown
      runs, and the handle of the one-second interval driving it, if any. */
  datatype TimerState = TimerState(
    mode: Mode,
    timeLeft: int,
    isRunning: bool,
    timerInterval: Option<nat>)

  /** The state the page starts in: focus, full length, stopped, no interval. */
  const Initial := TimerState(Focus, Duration(Focus), false, None)

  /** What every step keeps: the countdown stays within the current mode's
      session, and the timer runs exactly when an interval handle is held. */
  predicate Inv(s: TimerState) {
    && 0 <= s.timeLeft <= Duration(s.mode)
    && (s.isRunning <==> s.timerInterval.Some?)
  }

  /** Choosing a mode: full session of that mode, stopped, handle released. */
  function SwitchMode(newMode: Mode): TimerState {
    TimerState(newMode, Duration(newMode), false, None)
  }

  /** The play/pause button: a running timer pauses and releases its handle; a
      stopped one starts and keeps `handle`, the id of the interval it creates. */
  function Toggle(s: TimerState, handle: nat): TimerState {
    if s.isRunning then s.(isRunning := false, timerInterval := None)
    else s.(isRunning := true, timerInterval := Some(handle))
  }

  /** The reset button: stop, release the handle, refill the current mode. */
  function Reset(s: TimerState): TimerState {
    s.(isRunning := false, timerInterval := None, timeLeft := Duration(s.mode))
  }

  /** One firing of the interval: count down a second, or, once nothing is
      left, move on to the next mode, stopped. */
  function Tick(s: TimerState): TimerState {
    if s.timeLeft > 0 then s.(timeLeft := s.timeLeft - 1)
    else SwitchMode(NextMode(s.mode))
  }

  /** `k` successive firings of the interval. */
  function Ticks(s: TimerState, k: nat): TimerState
    decreases k
  {
    if k == 0 then s else Ticks(Tick(s), k - 1)
  }

  lemma InitialInv()
    ensures Inv(Initial)
    ensures Initial.mode == Focus && Initial.timeLeft == 1500 && !Initial.isRunning
  {
  }

  /** switchMode sets the mode, loads its full duration, stops the timer and
      releases any handle, whatever the state was. */
  lemma SwitchModeSpec(m: Mode)
    ensures var t := SwitchMode(m);
      && Inv(t)
      && t.mode == m && !t.isRunning && t.timerInterval == None
      && t.timeLeft == (match m case Focus => 1500 case ShortBreak => 300 case LongBreak => 900)
  {
  }

  /** toggleTimer flips `isRunning`, never touches the mode or the countdown,
      holds a handle exactly when it leaves the timer running, and so keeps the
      invariant. Starting needs no handle already held: the invariant rules
      out a second live interval. */
  lemma ToggleSpec(s: TimerState, handle: nat)
    requires Inv(s)
    ensures var t := Toggle(s, handle);
      && Inv(t)
      && t.isRunning == !s.isRunning
      && t.mode == s.mode && t.timeLeft == s.timeLeft
      && (t.isRunning ==> s.timerInterval == None && t.timerInterval == Some(handle))
      && (!t.isRunning ==> t.timerInterval == None)
  {
  }

  /** Pausing right after starting gives back the state before the start. */
  lemma ToggleTwiceRestores(s: TimerState, h1: nat, h2: nat)
    requires Inv(s) && !s.isRunning
    ensures Toggle(Toggle(s, h1), h2) == s
  {
  }

  /** resetTimer keeps the mode, refills it, stops and releases the handle. */
  lemma ResetSpec(s: TimerState)
    requires Inv(s)
    ensures var t := Reset(s);
      && Inv(t)
      && t.mode == s.mode
      && t.timeLeft == Duration(s.mode)
      && !t.isRunning && t.timerInterval == None
  {
  }

  /** A tick with time left takes exactly one second off and changes nothing
      else: the mode, the running flag and the handle stay. */
  lemma TickCountsDown(s: TimerState)
    requires Inv(s) && s.timeLeft > 0
    ensures var t := Tick(s);
      && Inv(t)
      && t.timeLeft == s.timeLeft - 1
      && t.mode == s.mode && t.isRunning == s.isRunning
      && t.timerInterval == s.timerInterval
  {
  }

  /** A tick that finds nothing left stops the timer and switches focus to a
      short break and either break back to focus, at full duration. */
  lemma TickAtZero(s: TimerState)
    requires Inv(s) && s.timeLeft == 0
    ensures var t := Tick(s);
      && Inv(t)
      && !t.isRunning && t.timerInterval == None
      && (s.mode == Focus ==> t.mode == ShortBreak)
      && (s.mode != Focus ==> t.mode == Focus)
      && t.timeLeft == Duration(t.mode)
  {
  }

  /** Every step keeps the invariant. */
  lemma StepsPreserveInv(s: TimerState, m: Mode, handle: nat)
    requires Inv(s)
    ensures Inv(SwitchMode(m)) && Inv(Toggle(s, handle)) && Inv(Reset(s)) && Inv(Tick(s))
  {
  }

  /** A long break is never entered by a tick: only by choosing it. */
  lemma TickNeverEntersLongBreak(s: TimerState)
    ensures Tick(s).mode == LongBreak ==> s.mode == LongBreak && s.timeLeft > 0
  {
  }

  /** Within a session the countdown goes down one second per tick, and the
      timer keeps running with the same handle. */
  lemma {:induction false} TicksWithinSession(s: TimerState, k: nat)
    requires Inv(s) && k <= s.timeLeft
    ensures Ticks(s, k) == s.(timeLeft := s.timeLeft - k)
    decreases k
  {
    if k > 0 {
      TicksWithinSession(Tick(s), k - 1);
    }
  }

  /** A running session shows 0 after `timeLeft` ticks, still in its mode and
      running; the next tick ends it and leaves the next mode loaded and
      stopped, so the interval fires `timeLeft + 1` times in all. */
  lemma SessionEnds(s: TimerState)
    requires Inv(s) && s.isRunning
    ensures Ticks(s, s.timeLeft) == s.(timeLeft := 0)
    ensures Ticks(s, s.timeLeft + 1) == SwitchMode(NextMode(s.mode))
  {
    TicksWithinSession(s, s.timeLeft);
    TicksSplit(s, s.timeLeft, 1);
  }

  lemma {:induction false} TicksSplit(s: TimerState, j: nat, k: nat)
    ensures Ticks(s, j + k) == Ticks(Ticks(s, j), k)
    decreases j
  {
    if j > 0 {
      TicksSplit(Tick(s), j - 1, k);
    }
  }
}
