/**
 When the rate limiter's sweeps make no difference: with stamps that equal the clock under the lock or are a
 second older, and as long as no delete hits an entry that has been refreshed since its stale check or is held
 by a packet in flight, every decision of a run is the one of the same run without the sweeper.
 */
module RateLimiterSweeps {
  import opened Collections
  import opened RateLimiter
  import opened RateLimiterAccounts
  import opened RateLimiterRuns

  /** The run without the sweeper's steps. */
  function Unswept(steps: seq<Step>): seq<Step> {
    if steps == [] then []
    else
      var n := |steps| - 1;
      Unswept(steps[..n]) + if BySweeper(steps[n]) then [] else [steps[n]]
  }

  /** What a step decides about a packet. */
  function Decision(s: State, step: Step): seq<bool> {
    if step.LockAndCount? && Holds(s, step.worker) then [Admits(s.objects[s.held[step.worker]], s.clock)] else []
  }

  function Decisions(begin: Time, steps: seq<Step>): seq<bool> {
    if steps == [] then []
    else
      var n := |steps| - 1;
      Decisions(begin, steps[..n]) + Decision(Run(begin, steps[..n]), steps[n])
  }

  /** No delete of the run hits a refreshed or a held entry, and stamps are settled. */
  predicate Undisturbed(begin: Time, steps: seq<Step>) {
    steps != [] ==>
      var n := |steps| - 1;
      var s := Run(begin, steps[..n]);
      && Undisturbed(begin, steps[..n])
      && !HitsRefreshed(s, steps[n]) && StrandedBy(s, steps[n]) == 0 && Stamped(Settled, s, steps[n])
  }

  /** All packets in flight hold the table's entry. */
  predicate HeldMapped(s: State) {
    forall w | w in s.held :: s.entry == Some(s.held[w])
  }

  /** The entry with sweeps is the one without, or is missing or new while that one is stale. */
  predicate SameEntry(s: State, f: State)
    requires Shape(s) && Shape(f)
  {
    match s.entry
    case None => f.entry.Some? ==> Stale(f.objects[f.entry.value], f.clock)
    case Some(o) =>
      && f.entry.Some?
      && (s.objects[o] == f.objects[f.entry.value] || (s.objects[o].count == 0 && Stale(f.objects[f.entry.value], f.clock)))
  }

  ghost predicate Agree(s: State, f: State) {
    && Shape(s) && Shape(f) && s.clock == f.clock && s.stamps == f.stamps && s.held.Keys == f.held.Keys
    && HeldMapped(s) && HeldMapped(f) && SameEntry(s, f)
  }

  lemma WorkerAgrees(s: State, f: State, step: Step)
    requires Agree(s, f) && !BySweeper(step) && Stamped(Settled, s, step)
    ensures Agree(Apply(s, step), Apply(f, step)) && Decision(s, step) == Decision(f, step)
  {
    KeepsShape(s, step);
    KeepsShape(f, step);
    if step.LockAndCount? {
      CountAgrees(s, f, step.worker);
    }
  }

  lemma CountAgrees(s: State, f: State, worker: Worker)
    requires Agree(s, f) && Stamped(Settled, s, LockAndCount(worker))
    requires Shape(Apply(s, LockAndCount(worker))) && Shape(Apply(f, LockAndCount(worker)))
    ensures Agree(Apply(s, LockAndCount(worker)), Apply(f, LockAndCount(worker)))
    ensures Decision(s, LockAndCount(worker)) == Decision(f, LockAndCount(worker))
  {
    if worker in s.held {
      var w, v := s.objects[s.held[worker]], f.objects[f.held[worker]];
      assert Count(w, s.clock) == Count(v, f.clock);
    }
  }

  lemma SweeperAgrees(s: State, f: State, step: Step)
    requires Agree(s, f) && BySweeper(step) && !HitsRefreshed(s, step) && StrandedBy(s, step) == 0
    ensures Agree(Apply(s, step), f)
  {
    KeepsShape(s, step);
    if step.Delete? && s.sweeper.Condemning? {
      NobodyHolds(s);
    }
  }

  lemma NobodyHolds(s: State)
    requires Shape(s) && HeldMapped(s) && s.sweeper.Condemning? && |HoldersOf(s.held, s.sweeper.o)| == 0
    ensures s.held.Keys == {}
  {
    assert s.held.Keys == HoldersOf(s.held, s.sweeper.o);
  }

  lemma DecisionsOne(begin: Time, steps: seq<Step>, step: Step)
    ensures Run(begin, steps + [step]) == Apply(Run(begin, steps), step)
    ensures Decisions(begin, steps + [step]) == Decisions(begin, steps) + Decision(Run(begin, steps), step)
  {
    assert (steps + [step])[..|steps|] == steps;
  }

  lemma {:induction false} RunsAgree(begin: Time, steps: seq<Step>)
    requires Undisturbed(begin, steps)
    ensures Agree(Run(begin, steps), Run(begin, Unswept(steps)))
    ensures Decisions(begin, steps) == Decisions(begin, Unswept(steps))
  {
    if steps != [] {
      var n := |steps| - 1;
      var s, f, step := Run(begin, steps[..n]), Run(begin, Unswept(steps[..n])), steps[n];
      RunsAgree(begin, steps[..n]);
      if BySweeper(step) {
        SweeperAgrees(s, f, step);
        assert Unswept(steps) == Unswept(steps[..n]);
      } else {
        WorkerAgrees(s, f, step);
        DecisionsOne(begin, Unswept(steps[..n]), step);
      }
    }
  }

  /**
   With stamps that equal the clock under the lock or are a second older, sweeping never changes a decision of a
   run in which no delete hits an entry that has been refreshed since its stale check or is held by a packet in
   flight. `SweepHarmlessIff` shows that no other stamps will do.
   */
  lemma SweepsHarmless(begin: Time, steps: seq<Step>)
    requires Undisturbed(begin, steps)
    ensures Decisions(begin, steps) == Decisions(begin, Unswept(steps))
  {
    RunsAgree(begin, steps);
  }
}
