/** Finite runs of the monitor loop: a sequence of ticks fed through `Step`. */
module Trace {
  import opened OsCalls
  import Foreground
  import Reaper
  import opened Monitor

  /** The state after running every tick in order. */
  function Run(s: MonitorState, ticks: seq<Tick>): (r: MonitorState)
    ensures r.lastTrigger >= s.lastTrigger
    ensures r.errorCount <= s.errorCount + |ticks|
    decreases |ticks|
  {
    if ticks == [] then s else Run(Step(s, ticks[0]).state, ticks[1..])
  }

  /** The clock readings of the ticks that launched the application. */
  function LaunchTimes(s: MonitorState, ticks: seq<Tick>): seq<real>
    decreases |ticks|
  {
    if ticks == [] then []
    else
      var r := Step(s, ticks[0]);
      (if Launches(r.actions) then [ticks[0].now] else []) + LaunchTimes(r.state, ticks[1..])
  }

  /** Every launch of a run comes more than the cooldown after the trigger
      time the run started from. */
  lemma {:induction false} LaunchesAfterStart(s: MonitorState, ticks: seq<Tick>)
    ensures forall k :: 0 <= k < |LaunchTimes(s, ticks)| ==>
              LaunchTimes(s, ticks)[k] - s.lastTrigger > Cooldown as real
    decreases |ticks|
  {
    if ticks != [] {
      var t := ticks[0];
      var r := Step(s, t);
      var rest := LaunchTimes(r.state, ticks[1..]);
      var all := LaunchTimes(s, ticks);
      LaunchesAfterStart(r.state, ticks[1..]);
      TriggerMovesOnlyOnLaunch(s, t);
      assert r.state.lastTrigger >= s.lastTrigger;
      if Launches(r.actions) {
        assert all == [t.now] + rest;
      } else {
        assert all == rest;
      }
    }
  }

  /** Remediation fires at most once per cooldown window: any two launches of
      a run are more than the cooldown apart, however the clock readings of
      the ticks in between behave. */
  lemma {:induction false} LaunchesAreSpaced(s: MonitorState, ticks: seq<Tick>)
    ensures forall i, j :: 0 <= i < j < |LaunchTimes(s, ticks)| ==>
              LaunchTimes(s, ticks)[j] - LaunchTimes(s, ticks)[i] > Cooldown as real
    decreases |ticks|
  {
    if ticks != [] {
      var t := ticks[0];
      var r := Step(s, t);
      var rest := LaunchTimes(r.state, ticks[1..]);
      var all := LaunchTimes(s, ticks);
      LaunchesAreSpaced(r.state, ticks[1..]);
      if Launches(r.actions) {
        TriggerMovesOnlyOnLaunch(s, t);
        LaunchesAfterStart(r.state, ticks[1..]);
        assert all == [t.now] + rest;
      } else {
        assert all == rest;
      }
    }
  }

  /** A tick on which the crash handler is in front, with empty process
      tables and the given launch result. */
  function SurrogateTick(now: real, launchOk: bool): (t: Tick)
    ensures Sees(t, Surrogate) && SweepsComplete(t) && t.now == now
  {
    Tick(Foreground.WindowProbe(Returned(7), Returned(Foreground.IntPid(42)), Returned(true)),
         Returned(Surrogate), Returned(Reaper.Live), now,
         Reaper.Listing([], None), Reaper.Listing([], None), launchOk)
  }

  /** The crash handler shows up at 100 s, 130 s and 161 s: the first sighting
      remediates (even though the launch fails), the second only reports 30
      seconds of cooldown left, the third remediates again. */
  lemma CrashScenario()
    ensures var t1 := SurrogateTick(100.0, false);
            var t2 := SurrogateTick(130.0, true);
            var t3 := SurrogateTick(161.0, true);
            var r1 := Step(Initial, t1);
            var r2 := Step(r1.state, t2);
            var r3 := Step(r2.state, t3);
            && r1.actions == [Kill(Surrogate, Returned(0)), Kill(Target, Returned(0)), Launch(false), Sleep(TickPause)]
            && r1.state == MonitorState(100.0, 0)
            && r2.actions == [ReportCooldown(30), Sleep(TickPause)]
            && r2.state == MonitorState(100.0, 0)
            && r3.actions == [Kill(Surrogate, Returned(0)), Kill(Target, Returned(0)), Launch(true), Sleep(TickPause)]
            && r3.state == MonitorState(161.0, 0)
  {
    var t1 := SurrogateTick(100.0, false);
    var t2 := SurrogateTick(130.0, true);
    var t3 := SurrogateTick(161.0, true);
    FiringOrder(Initial, t1);
    var r1 := Step(Initial, t1);
    CoolingDown(r1.state, t2);
    var r2 := Step(r1.state, t2);
    FiringOrder(r2.state, t3);
  }
}
