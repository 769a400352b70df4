/** Fixed configuration of the timer: the three modes, the length of a full
    session in each, the names the page uses for them, and the mode a finished
    session moves on to. */
module Config {
  import opened Optional

  datatype Mode = Focus | ShortBreak | LongBreak

  /** Seconds in a full session of mode `m` (the DURATIONS table). */
  function Duration(m: Mode): (d: int)
    ensures d > 0 && d % 60 == 0
  {
    match m
    case Focus => 25 * 60
    case ShortBreak => 5 * 60
    case LongBreak => 15 * 60
  }

  /** The string the page and the state use for a mode (the `data-mode` values). */
  function ModeName(m: Mode): string
  {
    match m
    case Focus => "focus"
    case ShortBreak => "short-break"
    case LongBreak => "long-break"
  }

  /** The mode a `data-mode` string names, if any. */
  function ParseMode(name: string): Option<Mode>
  {
    if name == "focus" then Some(Focus)
    else if name == "short-break" then Some(ShortBreak)
    else if name == "long-break" then Some(LongBreak)
    else None
  }

  /** Mode names and parsing are inverse to each other, so distinct modes have
      distinct names. */
  lemma ModeNameRoundTrip(m: Mode, name: string)
    ensures ParseMode(ModeName(m)) == Some(m)
    ensures ParseMode(name) == Some(m) ==> ModeName(m) == name
  {
  }

  lemma ModeNameInjective(m1: Mode, m2: Mode)
    ensures ModeName(m1) == ModeName(m2) ==> m1 == m2
  {

  }

  /** The automatic switch when a session runs out: focus goes to a short
      break, either break goes back to focus. */
  function NextMode(m: Mode): (next: Mode)
    ensures next != m
    ensures next != LongBreak
    ensures (next == Focus) <==> (m != Focus)
  {
    if m == Focus then ShortBreak else Focus
  }
}
