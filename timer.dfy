/** The page's timer as the script runs it: one object whose fields are
    assigned in place by the three button handlers and by the interval
    callback. Beside the four fields of the `state` record it keeps the part
    of the host it talks to: the set of interval ids the host is currently
    firing, and the id the next `setInterval` call hands out. */
module Timer {
  import opened Optional
  import opened Config
  import Transitions

  /** The ids an interval handle keeps alive: none, or that one id. */
  function Handles(h: Option<nat>): set<nat> {
    if h.Some? then {h.value} else {}
  }

  class Timer {
    var mode: Mode
    var timeLeft: int
    var isRunning: bool
    var timerInterval: Option<nat>

    /** Interval ids the host is firing; ids are positive and handed out in
        increasing order. */
    var liveIntervals: set<nat>
    var nextHandle: nat

    /** The `state` record as a value. */
    function State(): Transitions.TimerState
      reads this
    {
      Transitions.TimerState(mode, timeLeft, isRunning, timerInterval)
    }

    /** Ids already handed out are below `nextHandle`. */
    ghost predicate HandlesIssued()
      reads this
    {
      0 < nextHandle && forall h :: h in liveIntervals ==> h < nextHandle
    }

    /** The state invariant, and the host fires exactly the interval whose
        handle the state holds, so never more than one. */
    ghost predicate Valid()
      reads this
    {
      && Transitions.Inv(State())
      && HandlesIssued()
      && liveIntervals == Handles(timerInterval)
    }

    constructor ()
      ensures Valid()
      ensures State() == Transitions.Initial
      ensures liveIntervals == {}
    {
      mode := Focus;
      timeLeft := Duration(Focus);
      isRunning := false;
      timerInterval := None;
      liveIntervals := {};
      nextHandle := 1;
    }

    /** The host's setInterval: a new id, from now on fired every second. */
    method SetInterval() returns (h: nat)
      requires HandlesIssued()
      modifies this`liveIntervals, this`nextHandle
      ensures HandlesIssued()
      ensures h == old(nextHandle) && h !in old(liveIntervals)
      ensures nextHandle == old(nextHandle) + 1
      ensures liveIntervals == old(liveIntervals) + {h}
    {
      h := nextHandle;
      liveIntervals := liveIntervals + {h};
      nextHandle := nextHandle + 1;
    }

    /** The host's clearInterval: that id stops firing; clearing null, or an
        id that no longer fires, does nothing. */
    method ClearInterval(h: Option<nat>)
      requires HandlesIssued()
      modifies this`liveIntervals
      ensures HandlesIssued()
      ensures liveIntervals == old(liveIntervals) - Handles(h)
    {
      liveIntervals := liveIntervals - Handles(h);
    }

    /** A mode button. Needs only that no interval fires other than the one
        whose handle is held (the tick at zero calls it after clearing that
        interval but before dropping the handle). */
    method SwitchMode(newMode: Mode)
      requires HandlesIssued() && liveIntervals <= Handles(timerInterval)
      modifies this
      ensures Valid()
      ensures State() == Transitions.SwitchMode(newMode)
      ensures liveIntervals == {}
      ensures nextHandle == old(nextHandle)
    {
      mode := newMode;
      timeLeft := Duration(newMode);
      isRunning := false;
      // Browser interval ids are positive, so a held handle is truthy.
      if timerInterval.Some? {
        ClearInterval(timerInterval);
        timerInterval := None;
      }
    }

    /** The play/pause button. */
    method ToggleTimer()
      requires Valid()
      modifies this
      ensures Valid()
      ensures State() == Transitions.Toggle(old(State()), old(nextHandle))
      ensures liveIntervals == if isRunning then {old(nextHandle)} else {}
      ensures |liveIntervals| <= 1
      ensures nextHandle == old(nextHandle) + (if isRunning then 1 else 0)
    {
      if isRunning {
        isRunning := false;
        ClearInterval(timerInterval);
        timerInterval := None;
      } else {
        isRunning := true;
        var h := SetInterval();
        timerInterval := Some(h);
      }
    }

    /** The reset button. */
    method ResetTimer()
      requires Valid()
      modifies this
      ensures Valid()
      ensures State() == Transitions.Reset(old(State()))
      ensures liveIntervals == {}
      ensures nextHandle == old(nextHandle)
    {
      isRunning := false;
      ClearInterval(timerInterval);
      timerInterval := None;
      timeLeft := Duration(mode);
    }

    /** The interval callback; the host runs it only while its interval is
        live, that is while a handle is held. */
    method Tick()
      requires Valid() && timerInterval.Some?
      modifies this
      ensures Valid()
      ensures State() == Transitions.Tick(old(State()))
      ensures old(timeLeft) > 0 ==> liveIntervals == old(liveIntervals)
      ensures old(timeLeft) == 0 ==> liveIntervals == {}
      ensures nextHandle == old(nextHandle)
    {
      if timeLeft > 0 {
        timeLeft := timeLeft - 1;
      } else {
        isRunning := false;
        ClearInterval(timerInterval);
        SwitchMode(if mode == Focus then ShortBreak else Focus);
      }
    }

    /** At most one interval is ever live, and one is exactly while running. */
    lemma AtMostOneLive()
      requires Valid()
      ensures |liveIntervals| <= 1
      ensures isRunning <==> |liveIntervals| == 1
    {
    }
  }

  /** A focus session driven through the object: starting creates the one
      interval, a tick counts down, pausing releases the interval and keeps
      the countdown, and choosing a mode while running stops the timer. */
  method FocusSessionScenario()
  {
    var t := new Timer();
    t.ToggleTimer();
    assert t.isRunning && |t.liveIntervals| == 1;
    t.Tick();
    assert t.timeLeft == 1499;
    t.ToggleTimer();
    assert !t.isRunning && t.liveIntervals == {} && t.timeLeft == 1499;
    t.ToggleTimer();
    t.SwitchMode(LongBreak);
    assert !t.isRunning && t.liveIntervals == {} && t.timeLeft == 900;
    t.ResetTimer();
    assert t.mode == LongBreak && t.timeLeft == 900;
  }
}
