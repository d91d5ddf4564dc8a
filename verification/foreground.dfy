/** The foreground-process probe: from the foreground window to a validated pid. */
module Foreground {
  import opened OsCalls

  /** What `GetWindowThreadProcessId` hands back as the pid: an integer, or
      some other Python value that fails `isinstance(pid, int)`. */
  datatype RawPid = IntPid(n: int) | NonIntPid

  /** The outcomes of the three queries the probe makes, in the order it makes
      them: `GetForegroundWindow`, `GetWindowThreadProcessId`, `pid_exists`. */
  datatype WindowProbe = WindowProbe(hwnd: Call<int>, pid: Call<RawPid>, pidExists: Call<bool>)

  /** `get_foreground_pid`: a positive pid that exists, or `None` when the window
      handle is 0, the pid is not a positive integer, the pid does not exist, or
      any of the queries raised (every exception is caught and logged). */
  function ForegroundPid(w: WindowProbe): (r: Option<int>)
    ensures r.Some? ==> r.value > 0 && w.pid == Returned(IntPid(r.value))
    ensures r.Some? <==>
              && w.hwnd.Returned? && w.hwnd.value != 0
              && w.pid.Returned? && w.pid.value.IntPid? && w.pid.value.n > 0
              && w.pidExists == Returned(true)
  {
    match w.hwnd
    case Raised(_) => None
    case Returned(hwnd) =>
      if hwnd == 0 then None
      else
        match w.pid
        case Raised(_) => None
        case Returned(raw) =>
          if !raw.IntPid? || raw.n <= 0 then None
          else
            match w.pidExists
            case Raised(_) => None
            case Returned(alive) => if alive then Some(raw.n) else None
  }

  /** The checks run in order: once the window handle is 0 or its query
      raised, the later queries cannot change the answer, and likewise once the
      pid is rejected the existence query is irrelevant. */
  lemma EarlyRejectionIgnoresLaterQueries(w: WindowProbe, pid: Call<RawPid>, alive: Call<bool>)
    ensures (w.hwnd.Raised? || w.hwnd == Returned(0)) ==>
              ForegroundPid(w.(pid := pid, pidExists := alive)) == None
    ensures (w.hwnd.Returned? && w.hwnd.value != 0 &&
             (w.pid.Raised? || w.pid.value.NonIntPid? || w.pid.value.n <= 0)) ==>
              ForegroundPid(w.(pidExists := alive)) == None
  {
  }
}
