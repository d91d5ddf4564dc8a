/** `kill_process`: the termination sweep over the process table. */
module Reaper {
  import opened OsCalls
  import Text

  /** A process status as far as the sweep cares: `psutil.STATUS_ZOMBIE` or
      anything else. */
  datatype Status = Zombie | Live

  /** One entry yielded by `psutil.process_iter(['pid', 'name'])`, together
      with the outcomes of the calls the sweep may make on it: opening the
      process by its pid and reading its status, then `terminate()`.  The pid
      itself only reaches the log, so the entry does not carry it.  A `None` name is
      what psutil reports when the name could not be read. */
  datatype ProcEntry = ProcEntry(name: Option<string>, status: Call<Status>, terminate: Call<()>)

  /** The process table as the iterator delivers it: the entries it yields,
      then, optionally, the exception it raises instead of finishing. */
  datatype Listing = Listing(entries: seq<ProcEntry>, failure: Option<ProcError>)

  /** What became of one entry during a sweep. */
  datatype Outcome =
    | Unmatched                     // name differs from the target: left alone
    | NameUnreadable                // `None.lower()` raised; absorbed by the generic handler
    | StatusFailed(error: ProcError)    // opening the process or reading its status raised
    | ZombieSkipped                 // a zombie: never terminated
    | TerminateFailed(error: ProcError) // `terminate()` was issued and raised
    | Terminated                    // `terminate()` was issued and returned

  /** `proc.info['name'].lower() == proc_name.lower()`. */
  predicate Matches(e: ProcEntry, target: string)
    ensures Matches(e, target) <==>
              && e.name.Some? && |e.name.value| == |target|
              && forall i :: 0 <= i < |target| ==> Text.LowerChar(e.name.value[i]) == Text.LowerChar(target[i])
  {
    e.name.Some? && Text.SameIgnoringCase(e.name.value, target)
  }

  /** True when `terminate()` was issued for the entry. */
  predicate Attempted(o: Outcome) {
    o.Terminated? || o.TerminateFailed?
  }

  /** One iteration of the sweep's loop body, with both exception handlers. */
  function Classify(e: ProcEntry, target: string): (o: Outcome)
    ensures Attempted(o) <==> Matches(e, target) && e.status == Returned(Live)
    ensures o == Terminated <==> Matches(e, target) && e.status == Returned(Live) && e.terminate.Returned?
    ensures !Matches(e, target) ==> o == Unmatched || o == NameUnreadable
    ensures Matches(e, target) && e.status == Returned(Zombie) ==> o == ZombieSkipped
  {
    match e.name
    case None => NameUnreadable
    case Some(name) =>
      if Text.Lower(name) != Text.Lower(target) then Unmatched
      else
        match e.status
        case Raised(err) => StatusFailed(err)
        case Returned(Zombie) => ZombieSkipped
        case Returned(Live) =>
          match e.terminate
          case Raised(err) => TerminateFailed(err)
          case Returned(_) => Terminated
  }

  /** The sweep as a fold: each entry's outcome is decided by that entry alone,
      so a failure on one process never stops the later ones. */
  function Outcomes(es: seq<ProcEntry>, target: string): (os: seq<Outcome>)
    ensures |os| == |es|
    ensures forall i :: 0 <= i < |es| ==> os[i] == Classify(es[i], target)
  {
    if es == [] then [] else [Classify(es[0], target)] + Outcomes(es[1..], target)
  }

  /** The number of `Terminated` outcomes: the sweep's `killed` counter. */
  function CountTerminated(os: seq<Outcome>): (n: nat)
    ensures n <= |os|
  {
    if os == [] then 0
    else CountTerminated(os[..|os| - 1]) + (if os[|os| - 1].Terminated? then 1 else 0)
  }

  /** The number of entries whose name matches the target case-insensitively. */
  function MatchCount(es: seq<ProcEntry>, target: string): (n: nat)
    ensures n <= |es|
  {
    if es == [] then 0
    else MatchCount(es[..|es| - 1], target) + (if Matches(es[|es| - 1], target) then 1 else 0)
  }

  /** Every terminated process is a matching one, so the count never exceeds
      the number of matches. */
  lemma {:induction false} KilledAtMostMatches(es: seq<ProcEntry>, target: string)
    ensures CountTerminated(Outcomes(es, target)) <= MatchCount(es, target)
  {
    if es != [] {
      var init := es[..|es| - 1];
      KilledAtMostMatches(init, target);
      assert Outcomes(es, target)[..|es| - 1] == Outcomes(init, target);
    }
  }

  /** Counting distributes over concatenation. */
  lemma {:induction false} CountTerminatedAppend(a: seq<Outcome>, b: seq<Outcome>)
    ensures CountTerminated(a + b) == CountTerminated(a) + CountTerminated(b)
    decreases |b|
  {
    if b != [] {
      var init := b[..|b| - 1];
      assert (a + b)[..|a + b| - 1] == a + init;
      CountTerminatedAppend(a, init);
    } else {
      assert a + b == a;
    }
  }

  /** The fold over a concatenated table is the concatenation of the folds. */
  lemma {:induction false} OutcomesAppend(a: seq<ProcEntry>, b: seq<ProcEntry>, target: string)
    ensures Outcomes(a + b, target) == Outcomes(a, target) + Outcomes(b, target)
    decreases |a|
  {
    if a == [] {
      assert a + b == b;
    } else {
      var ab := a + b;
      assert ab[0] == a[0] && ab[1..] == a[1..] + b;
      OutcomesAppend(a[1..], b, target);
      calc {
        Outcomes(ab, target);
        [Classify(a[0], target)] + Outcomes(a[1..] + b, target);
        [Classify(a[0], target)] + (Outcomes(a[1..], target) + Outcomes(b, target));
        ([Classify(a[0], target)] + Outcomes(a[1..], target)) + Outcomes(b, target);
      }
    }
  }

  /** Sweeping two parts of the table one after the other is sweeping the
      whole table: what happened in the first part has no effect on the
      second, and the counts add up. */
  lemma SweepIsCompositional(a: seq<ProcEntry>, b: seq<ProcEntry>, target: string)
    ensures Outcomes(a + b, target) == Outcomes(a, target) + Outcomes(b, target)
    ensures CountTerminated(Outcomes(a + b, target))
            == CountTerminated(Outcomes(a, target)) + CountTerminated(Outcomes(b, target))
  {
    OutcomesAppend(a, b, target);
    CountTerminatedAppend(Outcomes(a, target), Outcomes(b, target));
  }

  /** `kill_process(proc_name)`: the count of processes terminated, or the
      exception the process iterator raised. */
  function Sweep(l: Listing, target: string): (r: Call<nat>)
    ensures l.failure.Some? <==> r.Raised?
    ensures l.failure.Some? ==> r.error == l.failure.value
    ensures r.Returned? ==> r.value <= MatchCount(l.entries, target)
    ensures l.failure.None? && MatchCount(l.entries, target) == 0 ==> r == Returned(0)
  {
    match l.failure
    case Some(err) => Raised(err)
    case None =>
      KilledAtMostMatches(l.entries, target);
      Returned(CountTerminated(Outcomes(l.entries, target)))
  }

  /** The sweep as the loop the source runs, returning the count together with
      the per-process outcomes it logs. */
  method KillProcess(l: Listing, target: string) returns (r: Call<nat>, outcomes: seq<Outcome>)
    ensures r == Sweep(l, target)
    ensures |outcomes| == |l.entries|
    ensures forall i :: 0 <= i < |outcomes| ==> outcomes[i] == Classify(l.entries[i], target)
  {
    var killed: nat := 0;
    outcomes := [];
    var i := 0;
    while i < |l.entries|
      invariant 0 <= i <= |l.entries|
      invariant outcomes == Outcomes(l.entries[..i], target)
      invariant killed == CountTerminated(outcomes)
    {
      var o := Classify(l.entries[i], target);
      assert outcomes + [o] == Outcomes(l.entries[..i + 1], target);
      assert (outcomes + [o])[..|outcomes|] == outcomes;
      if o.Terminated? {
        killed := killed + 1;
      }
      outcomes := outcomes + [o];
      i := i + 1;
    }
    assert l.entries[..i] == l.entries;
    if l.failure.Some? {
      r := Raised(l.failure.value);
    } else {
      r := Returned(killed);
    }
  }

  /** A sweep on an empty table, or on a table without a single matching
      name, terminates nothing and touches nothing. */
  lemma NoMatchesNoKills(es: seq<ProcEntry>, target: string)
    requires forall i :: 0 <= i < |es| ==> !Matches(es[i], target)
    ensures forall i :: 0 <= i < |es| ==> !Attempted(Outcomes(es, target)[i])
    ensures Sweep(Listing(es, None), target) == Returned(0)
  {
    NoMatchesCountZero(es, target);
  }

  lemma {:induction false} NoMatchesCountZero(es: seq<ProcEntry>, target: string)
    requires forall i :: 0 <= i < |es| ==> !Matches(es[i], target)
    ensures MatchCount(es, target) == 0
  {
    if es != [] {
      NoMatchesCountZero(es[..|es| - 1], target);
    }
  }
}
