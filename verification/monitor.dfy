/** One iteration of `main_loop` as a pure transition.

    The loop state is the time of the last remediation and the count of
    consecutive unexpected failures.  Everything the iteration learns from
    the operating system, the clock and the launcher arrives in a `Tick`; what
    it does to the outside world leaves as a sequence of `Action`s.
 */
module Monitor {
  import opened OsCalls
  import Foreground
  import Reaper
  import Backoff

  /** `cooldown`: seconds that must pass, strictly, between two remediations. */
  const Cooldown: int := 60

  /** The crash handler whose arrival in the foreground triggers remediation. */
  const Surrogate: string := "crashpad_handler.exe"

  /** The application that is killed and started again. */
  const Target: string := "qq.exe"

  /** Seconds slept after a tick that found no foreground pid. */
  const AbsentPause: nat := 1

  /** Seconds slept after a tick that reached the normal end. */
  const TickPause: nat := 5

  datatype MonitorState = MonitorState(lastTrigger: real, errorCount: nat)

  /** `last_trigger = 0`, `error_count = 0`. */
  const Initial: MonitorState := MonitorState(0.0, 0)

  /** Everything one iteration observes, in the order it asks:
      - `window`: the queries made by `get_foreground_pid`;
      - `fgName`, `fgStatus`: opening the foreground process and reading its
        name, then its status;
      - `now`: `time.time()`, read only when the surrogate is in front;
      - `surrogateListing`, `targetListing`: the process tables the two
        sweeps iterate over;
      - `launchOk`: what `start_qq()` returns (it never raises). */
  datatype Tick = Tick(
    window: Foreground.WindowProbe,
    fgName: Call<string>,
    fgStatus: Call<Reaper.Status>,
    now: real,
    surrogateListing: Reaper.Listing,
    targetListing: Reaper.Listing,
    launchOk: bool)

  /** The effects of an iteration, in the order they happen. */
  datatype Action =
    | Kill(name: string, result: Call<nat>)   // one `kill_process(name)` call
    | Launch(ok: bool)                        // one `start_qq()` call and its result
    | ReportCooldown(remaining: int)          // the "cooldown remaining" log line
    | Sleep(seconds: nat)                     // `time.sleep(seconds)`

  datatype StepResult = StepResult(state: MonitorState, actions: seq<Action>)

  /** Python's `int(x)` on a float: truncation toward zero. */
  function TruncToInt(x: real): (i: int)
    ensures x >= 0.0 ==> i as real <= x < i as real + 1.0
    ensures x < 0.0 ==> i as real - 1.0 < x <= i as real
  {
    if x >= 0.0 then x.Floor else -((-x).Floor)
  }

  /** `cooldown - int(current_time - last_trigger)`, reported while cooling
      down: never negative, and for a non-negative elapsed time it is the
      remaining time rounded up to whole seconds. */
  function Remaining(elapsed: real): (r: int)
    requires elapsed <= Cooldown as real
    ensures r >= 0
    ensures elapsed >= 0.0 ==> r <= Cooldown
    ensures elapsed >= 0.0 ==> Cooldown as real - elapsed <= r as real < Cooldown as real - elapsed + 1.0
    ensures elapsed == elapsed.Floor as real ==> r == Cooldown - elapsed.Floor
  {
    Cooldown - TruncToInt(elapsed)
  }

  /** Line 194 and the 5-second pause: the error counter is reset. */
  function Finish(lastTrigger: real, acts: seq<Action>): (r: StepResult)
    ensures r.state.errorCount == 0 && r.state.lastTrigger == lastTrigger
    ensures |r.actions| == |acts| + 1 && r.actions[..|acts|] == acts
    ensures r.actions[|acts|] == Sleep(TickPause)
  {
    StepResult(MonitorState(lastTrigger, 0), acts + [Sleep(TickPause)])
  }

  /** The two handlers around the iteration body: NoSuchProcess and
      AccessDenied are caught by the inner handler and the tick ends normally;
      any other exception reaches the outer one, which counts it and backs off. */
  function Recover(s: MonitorState, acts: seq<Action>, e: ProcError): (r: StepResult)
    ensures r.state.lastTrigger == s.lastTrigger
    ensures |r.actions| == |acts| + 1 && r.actions[..|acts|] == acts
    ensures r.actions[|acts|].Sleep?
    ensures e != OtherError ==> r.state.errorCount == 0 && r.actions[|acts|] == Sleep(TickPause)
    ensures e == OtherError ==> r.state.errorCount == s.errorCount + 1
    ensures e == OtherError ==> 2 <= r.actions[|acts|].seconds <= Backoff.MaxRetryDelay
  {
    if CaughtByName(e) then Finish(s.lastTrigger, acts)
    else
      var n := s.errorCount + 1;
      StepResult(MonitorState(s.lastTrigger, n), acts + [Sleep(Backoff.Delay(n))])
  }

  /** The surrogate branch (lines 172-189) once the foreground process is
      known to be the crash handler. */
  function SurrogateInFront(s: MonitorState, t: Tick): (r: StepResult)
    ensures r.state.lastTrigger == s.lastTrigger
            || (r.state.lastTrigger == t.now && t.now - s.lastTrigger > Cooldown as real)
  {
    var elapsed := t.now - s.lastTrigger;
    if elapsed > Cooldown as real then
      var killedSurrogate := Reaper.Sweep(t.surrogateListing, Surrogate);
      if killedSurrogate.Raised? then
        Recover(s, [Kill(Surrogate, killedSurrogate)], killedSurrogate.error)
      else
        var killedTarget := Reaper.Sweep(t.targetListing, Target);
        if killedTarget.Raised? then
          Recover(s, [Kill(Surrogate, killedSurrogate), Kill(Target, killedTarget)], killedTarget.error)
        else
          Finish(t.now, [Kill(Surrogate, killedSurrogate), Kill(Target, killedTarget), Launch(t.launchOk)])
    else
      Finish(s.lastTrigger, [ReportCooldown(Remaining(elapsed))])
  }

  /** One iteration of `main_loop`. */
  function Step(s: MonitorState, t: Tick): (r: StepResult)
    ensures r.state.lastTrigger == s.lastTrigger
            || (r.state.lastTrigger == t.now && t.now - s.lastTrigger > Cooldown as real)
    ensures r.state.errorCount in {0, s.errorCount, s.errorCount + 1}
    ensures r.state.errorCount == s.errorCount + 1 ==>
              |r.actions| > 0 && r.actions[|r.actions| - 1] == Sleep(Backoff.Delay(s.errorCount + 1))
  {
    match Foreground.ForegroundPid(t.window)
    case None => StepResult(s, [Sleep(AbsentPause)])
    case Some(_) =>
      match t.fgName
      case Raised(e) => Recover(s, [], e)
      case Returned(name) =>
        match t.fgStatus
        case Raised(e) => Recover(s, [], e)
        case Returned(status) =>
          if status == Reaper.Zombie then StepResult(s, [])
          else if name != Surrogate then Finish(s.lastTrigger, [])
          else SurrogateInFront(s, t)
  }

  // ---------------------------------------------------------------------------
  // Properties of one iteration
  // ---------------------------------------------------------------------------

  /** The tick found a live foreground process with the given name. */
  predicate Sees(t: Tick, name: string) {
    && Foreground.ForegroundPid(t.window).Some?
    && t.fgName == Returned(name)
    && t.fgStatus == Returned(Reaper.Live)
  }

  /** Both sweeps would run to the end of their process tables. */
  predicate SweepsComplete(t: Tick) {
    t.surrogateListing.failure.None? && t.targetListing.failure.None?
  }

  predicate Launches(acts: seq<Action>) {
    exists i :: 0 <= i < |acts| && acts[i].Launch?
  }

  predicate Kills(acts: seq<Action>) {
    exists i :: 0 <= i < |acts| && acts[i].Kill?
  }

  /** Without a valid foreground pid the tick only sleeps for a second; the
      error counter and the trigger time stay as they were. */
  lemma AbsentTick(s: MonitorState, t: Tick)
    requires Foreground.ForegroundPid(t.window).None?
    ensures Step(s, t) == StepResult(s, [Sleep(AbsentPause)])
  {
  }

  /** A zombie in the foreground is skipped without sleeping, without
      consulting the trigger and without touching the error counter. */
  lemma ZombieTick(s: MonitorState, t: Tick)
    requires Foreground.ForegroundPid(t.window).Some?
    requires t.fgName.Returned? && t.fgStatus == Returned(Reaper.Zombie)
    ensures Step(s, t) == StepResult(s, [])
  {
  }

  /** Cooldown gating: the tick relaunches exactly when it sees the crash
      handler (by its exact, case-sensitive name) strictly more than the
      cooldown after the last trigger, and both sweeps ran to completion. */
  lemma CooldownGate(s: MonitorState, t: Tick)
    ensures Launches(Step(s, t).actions) <==>
              Sees(t, Surrogate) && t.now - s.lastTrigger > Cooldown as real && SweepsComplete(t)
  {
    var r := Step(s, t);
    if Sees(t, Surrogate) && t.now - s.lastTrigger > Cooldown as real && SweepsComplete(t) {
      assert r.actions[2].Launch?;
    } else {
      assert forall i :: 0 <= i < |r.actions| ==> !r.actions[i].Launch?;
    }
  }

  /** When the trigger fires, the crash handler is killed first, then the
      application, then one launch is attempted; the trigger time becomes
      `now` whatever the launch returned, and the error counter is reset. */
  lemma FiringOrder(s: MonitorState, t: Tick)
    requires Sees(t, Surrogate) && t.now - s.lastTrigger > Cooldown as real && SweepsComplete(t)
    ensures Step(s, t).actions == [
              Kill(Surrogate, Reaper.Sweep(t.surrogateListing, Surrogate)),
              Kill(Target, Reaper.Sweep(t.targetListing, Target)),
              Launch(t.launchOk),
              Sleep(TickPause)]
    ensures Step(s, t).state == MonitorState(t.now, 0)
  {
  }

  /** The launch result only reaches the log: it never changes the next state. */
  lemma LaunchResultIgnored(s: MonitorState, t: Tick)
    ensures Step(s, t.(launchOk := true)).state == Step(s, t.(launchOk := false)).state
  {
  }

  /** Within the cooldown the crash handler causes no kill and no launch; the
      tick reports the whole seconds remaining and ends normally. */
  lemma CoolingDown(s: MonitorState, t: Tick)
    requires Sees(t, Surrogate) && t.now - s.lastTrigger <= Cooldown as real
    ensures !Kills(Step(s, t).actions) && !Launches(Step(s, t).actions)
    ensures Step(s, t) == StepResult(MonitorState(s.lastTrigger, 0),
                                     [ReportCooldown(Remaining(t.now - s.lastTrigger)), Sleep(TickPause)])
  {
  }

  /** The trigger time moves exactly on the ticks that launch, and then to `now`. */
  lemma TriggerMovesOnlyOnLaunch(s: MonitorState, t: Tick)
    ensures !Launches(Step(s, t).actions) ==> Step(s, t).state.lastTrigger == s.lastTrigger
    ensures Launches(Step(s, t).actions) ==>
              Step(s, t).state.lastTrigger == t.now && t.now - s.lastTrigger > Cooldown as real
  {
    CooldownGate(s, t);
  }

  /** The first exception raised inside the iteration body, if any, on a tick
      that found a foreground pid: the foreground lookups come first; the
      sweeps are reached only on a live surrogate past the cooldown, and the
      second only when the first finished. */
  function BodyError(s: MonitorState, t: Tick): Option<ProcError> {
    if t.fgName.Raised? then Some(t.fgName.error)
    else if t.fgStatus.Raised? then Some(t.fgStatus.error)
    else if t.fgStatus.value == Reaper.Zombie || t.fgName.value != Surrogate then None
    else if t.now - s.lastTrigger <= Cooldown as real then None
    else if t.surrogateListing.failure.Some? then t.surrogateListing.failure
    else t.targetListing.failure
  }

  /** The error counter: reset by every tick that reaches the end of the body,
      including those where NoSuchProcess or AccessDenied was caught; kept by
      the absent-pid and zombie ticks; incremented, with a pause of
      `min(2 ** n, 300)` seconds, by any other exception. */
  lemma ErrorCounter(s: MonitorState, t: Tick)
    ensures Foreground.ForegroundPid(t.window).None? ==> Step(s, t).state.errorCount == s.errorCount
    ensures Foreground.ForegroundPid(t.window).Some? && t.fgName.Returned? && t.fgStatus == Returned(Reaper.Zombie)
            ==> Step(s, t).state.errorCount == s.errorCount
    ensures Foreground.ForegroundPid(t.window).Some? && BodyError(s, t) == Some(OtherError) ==>
              && Step(s, t).state.errorCount == s.errorCount + 1
              && Step(s, t).actions[|Step(s, t).actions| - 1] == Sleep(Backoff.Delay(s.errorCount + 1))
              && 2 <= Backoff.Delay(s.errorCount + 1) <= Backoff.MaxRetryDelay
    ensures Foreground.ForegroundPid(t.window).Some? && BodyError(s, t) != Some(OtherError)
            && !(t.fgName.Returned? && t.fgStatus == Returned(Reaper.Zombie))
            ==> Step(s, t).state.errorCount == 0
  {
  }

  /** An exception inside the body leaves the trigger time alone, even when it
      interrupts a remediation after the crash handler was already swept. */
  lemma FailureKeepsTrigger(s: MonitorState, t: Tick)
    requires Foreground.ForegroundPid(t.window).Some? && BodyError(s, t).Some?
    ensures Step(s, t).state.lastTrigger == s.lastTrigger
    ensures !Launches(Step(s, t).actions)
  {
    CooldownGate(s, t);
  }

  /** A tick whose foreground process is anything but the crash handler kills
      nothing, launches nothing and keeps the trigger time. */
  lemma OtherProcessIsNoOp(s: MonitorState, t: Tick, name: string)
    requires Sees(t, name) && name != Surrogate
    ensures Step(s, t) == StepResult(MonitorState(s.lastTrigger, 0), [Sleep(TickPause)])
  {
  }
}
