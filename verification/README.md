# qq_monitor watchdog — a verified model of its decision core

`qq_monitor` watches the Windows foreground window. When the Chromium crash
handler `crashpad_handler.exe` takes the foreground (a sign that QQ has crashed
into its crash reporter), it terminates every `crashpad_handler.exe` and
`qq.exe` process and starts QQ again through its Start-menu shortcut. A 60-second
cooldown stops relaunch storms. An exponential backoff, capped at 300 seconds,
absorbs unexpected failures of the monitoring loop.

This project models the decision core of `main.py` as pure Dafny functions.
Every OS query is replaced by an abstract input: the outcome of a win32 or
psutil call (`OsCalls.Call`), the process table, the clock reading, and the
launcher's result. The modules follow the program's structure:

- `OsCalls` (`os_calls.dfy`): `Option`, the exception kinds (`NoSuchProcess`,
  `AccessDenied`, anything else), and the outcome of one OS call.
- `Text` (`text.dfy`): ASCII lower-casing, which stands in for `str.lower()`.
- `Foreground` (`foreground.dfy`): `get_foreground_pid`, the validation chain.
  It takes the window handle, the raw pid and the existence check, and returns
  `Option<pid>`.
- `Reaper` (`reaper.dfy`): `kill_process`. The sweep is modelled as a fold over
  the process table and again as the source's loop, and the two are proved
  equal.
- `Backoff` (`backoff.dfy`): `delay = min(2 ** n, 300)`.
- `Monitor` (`monitor.dfy`): one iteration of `main_loop` as
  `Step(state, tick) -> (state', actions)`. The state is `last_trigger` and
  `error_count`. The actions are the kills, the launch, the cooldown report and
  the sleep, in the order they happen.
- `Trace` (`trace.dfy`): finite runs of the loop, the at-most-once-per-cooldown
  property, and an end-to-end crash scenario.

Decisions worth knowing:

- Timestamps are `real`, because `time.time()` is a float. This keeps the
  truncation in `int(current_time - last_trigger)` visible, and `TruncToInt`
  models it as truncation toward zero. `last_trigger` starts at `0`, as in the
  code.
- The name that triggers remediation is compared exactly and case-sensitively
  (`proc_name == 'crashpad_handler.exe'`). The sweep compares names
  case-insensitively.
- `kill_process` is called inside the inner `try`. So when the process iterator
  itself raises `NoSuchProcess` or `AccessDenied`, the inner handler catches it:
  the tick ends normally, the error counter is reset, and `last_trigger` is not
  advanced. Any other exception there reaches the outer handler and causes a
  backoff. `Reaper.Listing` models this: it holds the entries the iterator
  yields and, optionally, the exception it raises instead of finishing.
- A process name of `None` makes `.lower()` raise. The generic per-process
  handler absorbs that, so the entry is never terminated
  (`Reaper.NameUnreadable`).

Behaviour of `main.py` worth knowing:

- A tick without a foreground pid sleeps a fixed 1 second. It does not reset
  the error counter, because it `continue`s before line 194.
- A zombie in the foreground `continue`s with no sleep at all and leaves the
  error counter as it was.
- The probe does not check whether the session is locked, remote or idle. Any
  foreground window counts.
- The surrogate-name match is case-sensitive.
- The first trigger is measured against `last_trigger = 0`. There is no
  separate "never triggered" state. With real wall-clock times the first
  sighting always fires.

## Model

| member | source | states |
|---|---|---|
| Foreground.ForegroundPid | main.py:82-108 | The result is a pid exactly when the handle is non-zero, the pid is an integer above 0 and the pid exists, all without a raise. The pid returned is the one the window query gave. In every other case the result is None. |
| Foreground.EarlyRejectionIgnoresLaterQueries | main.py:85-103 | The checks run in order. Once the handle is 0 or its query raised, the pid and existence queries cannot change the result. Once the pid is rejected, the existence query cannot change it either. |
| Text.Lower | main.py:116 | ASCII lower-casing keeps the length and leaves no capital letter. Each capital becomes its own small letter, 32 code points up. Every other character stays unchanged. |
| Reaper.Matches | main.py:116 | A table entry matches the target exactly when its name is readable, has the target's length, and agrees with the target character by character once both are lower-cased. |
| OsCalls.CaughtByName | main.py:191-192 | The inner handler `except (psutil.NoSuchProcess, psutil.AccessDenied)`, the same tuple as the per-process handler at line 125, catches exactly the exceptions that are not some other error. |
| Reaper.Classify | main.py:115-128 | `terminate()` is issued exactly for a matching entry whose status reads as non-zombie. The entry counts as killed exactly when that `terminate()` also returned. A non-matching entry is never touched. A matching zombie is skipped. |
| Reaper.Outcomes | main.py:114-128 | The sweep yields one outcome per table entry, and each outcome is decided by that entry alone. A failure on one process therefore never stops the later ones. |
| Reaper.KilledAtMostMatches | main.py:113-129 | The number of processes killed is at most the number of entries whose lower-cased name equals the lower-cased target. |
| Reaper.SweepIsCompositional | main.py:114-128 | Sweeping a table in two parts gives the outcomes of each part side by side, and the counts add up. |
| Reaper.Sweep | main.py:110-129 | The sweep returns a count of at most the number of matches, and 0 when nothing matches. If the process iterator raises, the sweep raises that same exception. |
| Reaper.KillProcess | main.py:110-129 | The loop the source runs gives the same count, or the same exception, as the fold. It also gives the per-process outcomes, in table order. |
| Reaper.NoMatchesNoKills | main.py:113-129 | On an empty table, or one with no matching name, no `terminate()` is issued and the count is 0. |
| Backoff.Pow2 | main.py:199 | `2 ** n` exceeds n, and is even for n of 1 or more. |
| Backoff.Delay | main.py:198-199 | From the first failure on, the delay lies between 2 and 300 seconds. It equals 2^n for counts up to 8 and 300 for every count of 9 or more. |
| Backoff.DelayMonotone | main.py:198-199 | More consecutive failures never give a shorter delay. |
| Backoff.DelaySchedule | main.py:198-199 | Failures 1 to 9 give delays of 2, 4, 8, 16, 32, 64, 128, 256 and 300 seconds. |
| Monitor.TruncToInt | main.py:189 | `int()` on a float truncates toward zero. The result is within one of its argument, on the argument's side of zero. |
| Monitor.Remaining | main.py:188-189 | While cooling down, the reported remaining time is never negative. For a non-negative elapsed time it is at most 60 and equals the remaining time rounded up to whole seconds. For a whole number of elapsed seconds k it is exactly 60 - k. |
| Monitor.Finish | main.py:194-195 | A tick that reaches the end of the body keeps the actions taken so far. It then sleeps 5 s, resets the error counter to 0, and records the trigger time it was given. |
| Monitor.Recover | main.py:191-201 | After an exception, the tick keeps the actions taken so far and the trigger time, and appends exactly one sleep. For NoSuchProcess or AccessDenied the sleep is 5 s and the counter is reset to 0. For any other exception the counter goes up by one and the sleep lasts between 2 and 300 s. |
| Monitor.SurrogateInFront | main.py:172-189 | The trigger time either stays as it was or becomes `now`, and it becomes `now` only when `now` is strictly more than 60 s past it. |
| Monitor.Step | main.py:156-201 | One iteration moves the trigger time only forward, past the cooldown. It leaves the error counter reset, unchanged or incremented by one. An increment ends the tick with the backoff pause. |
| Monitor.AbsentTick | main.py:158-161 | Without a foreground pid, the tick only sleeps 1 s. The trigger time and the error counter stay as they were. |
| Monitor.ZombieTick | main.py:168-170 | A zombie in the foreground is skipped without a sleep. The state is unchanged. |
| Monitor.CooldownGate | main.py:172-187 | A launch happens exactly when three things hold. The foreground process is live and named exactly `crashpad_handler.exe`. `now - last_trigger > 60`, strictly. Both sweeps ran to the end. |
| Monitor.FiringOrder | main.py:174-187 | When the trigger fires, the actions are: kill `crashpad_handler.exe`, then kill `qq.exe`, then one launch, then the 5 s pause. The new state is `(now, 0)`. |
| Monitor.LaunchResultIgnored | main.py:182-187 | The launch result never changes the next state. `last_trigger := now` happens whether or not `start_qq` succeeded. |
| Monitor.CoolingDown | main.py:172-189 | Within the cooldown the surrogate causes no kill and no launch. The tick reports `Remaining` and ends normally, with the trigger time unchanged. |
| Monitor.TriggerMovesOnlyOnLaunch | main.py:173-187 | On a tick that does not launch, the trigger time is unchanged. On a tick that launches, it becomes `now`, which lies more than 60 s past the old trigger time. |
| Monitor.ErrorCounter | main.py:158-201 | The absent-pid and zombie ticks keep the counter. A tick whose body raises something other than NoSuchProcess or AccessDenied increments it and pauses `Delay(count)` seconds, which is between 2 and 300. Every other tick resets it to 0. |
| Monitor.FailureKeepsTrigger | main.py:163-201 | An exception in the body, including one that interrupts a remediation after the first sweep, never moves the trigger time and never launches. |
| Monitor.OtherProcessIsNoOp | main.py:172-195 | Any other live foreground process causes no kill and no launch. It keeps the trigger time, resets the counter and sleeps 5 s. |
| Trace.Run | main.py:150-201 | Over a run, the trigger time never decreases. The error counter grows by at most one per tick. |
| Trace.LaunchesAfterStart | main.py:172-187 | Every launch in a run comes more than 60 s after the trigger time the run started from. |
| Trace.LaunchesAreSpaced | main.py:172-187 | Any two launches in a run are more than 60 s apart, whatever the clock readings in between. Remediation fires at most once per cooldown window. |
| Trace.CrashScenario | main.py:150-194 | From the initial state, the surrogate seen at 100 s triggers a remediation, even though the launch fails. Seen again at 130 s, it only reports 30 s left. Seen at 161 s, it remediates again. |

## Left out

- Logging setup, the colour and emoji formatter, and the runtime `success` log level (main.py:12-57, 204-206). They are presentation only. Log lines appear only as the `ReportCooldown` action.
- `is_admin` and `elevate_privileges` (main.py:60-79). They are a privilege check and a re-launch through the Windows shell, with no decision logic.
- The internals of `start_qq` (main.py:131-145), that is, the shortcut-existence check and the `Popen` spawn. Its boolean result is an input, `Tick.launchOk`, because it never raises.
- The real win32gui, win32process and psutil calls. Each becomes the outcome of a call (`Call<T>`) supplied as input. Opening a process and reading its status are one input.
- `time.sleep` is emitted as a `Sleep` action and not performed. `time.time()` is an input read as an exact real, so floating-point rounding is not modelled.
- The infinite `while True` loop and the `KeyboardInterrupt` handler (main.py:156, 211-216). One iteration is `Monitor.Step`, and a finite run is `Trace.Run`.
- A process iterator that raises partway through its table is modelled. An exception raised after some terminate calls were issued is also modelled, but the sweep's own log lines are not.
- Text.Lower: only ASCII letters are folded, whereas Python's `str.lower()` folds all of Unicode. Process names outside ASCII may therefore compare differently.
