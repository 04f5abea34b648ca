/**
 How many packets the rate limiter admits, over every interleaving of workers and sweeper: through one entry, for one
 address given the deletes in an interval, and for one address whatever happens, because the ticker bounds the deletes.
 */
module RateLimiterBounds {
  import opened Collections
  import opened RateLimiter
  import opened RateLimiterAccounts
  import opened RateLimiterRuns

  // ---------- The bound for one entry ----------

  predicate ObjectLedger(n: int, s: State, o: nat, lo: Time, hi: Time) {
    && 0 <= n <= 2 * Ceil(hi - lo) + 2 && (n > 0 ==> lo <= s.clock)
    && if o >= |s.objects| || s.objects[o].count == 0 then n == 0 else Accounted(n, lo, s.objects[o], 2)
  }

  lemma ObjectStep(n: int, s: State, step: Step, o: nat, lo: Time, hi: Time)
    requires Shape(s) && lo <= hi && ObjectLedger(n, s, o, lo, hi)
    ensures ObjectLedger(n + if HitOf(s, step, o, lo, hi) then 1 else 0, Apply(s, step), o, lo, hi)
  {
    if step.LockAndCount? && Holds(s, step.worker) && s.held[step.worker] == o {
      var n' := n + if HitOf(s, step, o, lo, hi) then 1 else 0;
      var w := s.objects[o];
      if w.count == 0 { CountFirst(n, n', lo, w, s.clock, 0, 2); } else { CountAgain(n, n', lo, w, s.clock, 2); }
      WithinBound(n, n', lo, hi, Count(w, s.clock), s.clock, 2);
    }
  }

  lemma {:induction false} ObjectRun(begin: Time, steps: seq<Step>, o: nat, lo: Time, hi: Time)
    requires lo <= hi
    ensures ObjectLedger(AdmittedBy(begin, steps, o, lo, hi), Run(begin, steps), o, lo, hi)
  {
    if steps == [] {
      assert Ceil(hi - lo) >= 0;
    } else {
      var n := |steps| - 1;
      ObjectRun(begin, steps[..n], o, lo, hi);
      EveryRunShaped(begin, steps[..n]);
      ObjectStep(AdmittedBy(begin, steps[..n], o, lo, hi), Run(begin, steps[..n]), steps[n], o, lo, hi);
    }
  }

  /** Over every interleaving, one entry admits at most two packets per started second and two more. */
  lemma AdmittedByEntryAtMost(begin: Time, steps: seq<Step>, o: nat, lo: Time, hi: Time)
    requires lo <= hi
    ensures AdmittedBy(begin, steps, o, lo, hi) <= 2 * (Ceil(hi - lo) + 1)
  {
    ObjectRun(begin, steps, o, lo, hi);
  }

  // ---------- The bound for the address: packets through the table's entry ----------

  /** The window with which the table's entry was seen stale, from the check until the delete. */
  function Seen(s: State): Option<Window> {
    if s.sweeper.Condemning? then Some(s.sweeper.seen) else None
  }

  predicate Ledger(n: int, s: State, lo: Time, e: nat, k: Stamps)
    requires Shape(s)
  {
    && (n > 0 ==> lo <= s.clock)
    && match s.entry
       case None => Rested(n, lo, s.clock, Reserve(e, k))
       case Some(o) => EntryAccount(n, lo, s.clock, s.objects[o], Seen(s), e, k)
  }

  /** Before the interval nothing has been admitted in it, and whatever happened then does not matter. */
  lemma EarlyLedger(s: State, lo: Time, k: Stamps)
    requires Shape(s) && s.clock < lo
    ensures Ledger(0, s, lo, 0, k)
  {
  }

  lemma CountStep(n: int, s: State, worker: Worker, lo: Time, hi: Time, e: nat, k: Stamps)
    requires Shape(s) && lo <= hi && 0 <= n <= 2 * Ceil(hi - lo) + Allowance(e, k) && Ledger(n, s, lo, e, k)
    requires Stamped(k, s, LockAndCount(worker)) && Shape(Apply(s, LockAndCount(worker)))
    ensures var n' := n + if HitMapped(s, LockAndCount(worker), lo, hi) then 1 else 0;
            n' <= 2 * Ceil(hi - lo) + Allowance(e, k) && Ledger(n', Apply(s, LockAndCount(worker)), lo, e, k)
  {
    if Holds(s, worker) && s.entry == Some(s.held[worker]) {
      var n' := n + if HitMapped(s, LockAndCount(worker), lo, hi) then 1 else 0;
      CountEntry(n, n', lo, hi, s.clock, s.objects[s.held[worker]], Seen(s), e, k);
    }
  }

  lemma PassStep(n: int, s: State, now: Time, lo: Time, e: nat, k: Stamps)
    requires Shape(s) && Ledger(n, s, lo, e, k) && Shape(Apply(s, Pass(now)))
    ensures Ledger(n, Apply(s, Pass(now)), lo, e, k)
  {
    if now >= s.clock {
      if s.entry.Some? {
        EntryRestsOn(n, lo, s.clock, now, s.objects[s.entry.value], Seen(s), e, k);
      } else {
        RestsOn(n, lo, s.clock, now, Reserve(e, k));
      }
    }
  }

  lemma StoreStep(n: int, s: State, step: Step, lo: Time, e: nat, k: Stamps)
    requires Shape(s) && Ledger(n, s, lo, e, k) && Shape(Apply(s, step)) && (step.LoadOrStore? || step.Stamp?)
    ensures Ledger(n, Apply(s, step), lo, e, k)
  {
  }

  lemma CheckStep(n: int, s: State, lo: Time, e: nat, k: Stamps)
    requires Shape(s) && Ledger(n, s, lo, e, k) && Shape(Apply(s, CheckStale))
    ensures Ledger(n, Apply(s, CheckStale), lo, e, k)
  {
    if s.sweeper.Visiting? && Stale(s.objects[s.sweeper.o], s.sweeper.now) {
      SeenStale(n, lo, s.clock, s.objects[s.sweeper.o], e, k);
    }
  }

  lemma DeleteStep(n: int, s: State, lo: Time, e: nat, k: Stamps)
    requires Shape(s) && Ledger(n, s, lo, e, k) && Shape(Apply(s, Delete))
    ensures Ledger(n, Apply(s, Delete), lo, e + if HitsRefreshed(s, Delete) then 1 else 0, k)
  {
    if HitsRefreshed(s, Delete) {
      RefreshedRests(n, lo, s.objects[s.sweeper.o], s.clock, Strict(e, k));
    }
  }

  lemma SweepStep(n: int, s: State, step: Step, lo: Time, e: nat, k: Stamps)
    requires Shape(s) && Ledger(n, s, lo, e, k) && Shape(Apply(s, step)) && BySweeper(step)
    ensures Ledger(n, Apply(s, step), lo, e + if HitsRefreshed(s, step) then 1 else 0, k)
  {
    match step
    case CheckStale => CheckStep(n, s, lo, e, k);
    case Delete => DeleteStep(n, s, lo, e, k);
    case _ =>
  }

  /** The account of a run: nothing before the interval, the ledger in it, and the bound from then on. */
  predicate Balance(n: int, s: State, lo: Time, hi: Time, e: nat, k: Stamps) {
    && Shape(s)
    && 0 <= n <= 2 * Ceil(hi - lo) + Allowance(e, k)
    && (s.clock < lo ==> n == 0 && e == 0)
    && (During(s, lo, hi) ==> Ledger(n, s, lo, e, k))
  }

  lemma AllowanceGrows(e: nat, k: Stamps)
    ensures Allowance(e, k) <= Allowance(e + 1, k)
  {
  }

  /** A step in the interval. */
  lemma DuringStep(n: int, s: State, step: Step, lo: Time, hi: Time, e: nat, k: Stamps)
    requires Shape(s) && lo <= hi && During(s, lo, hi) && Stamped(k, s, step) && Shape(Apply(s, step))
    requires 0 <= n <= 2 * Ceil(hi - lo) + Allowance(e, k) && Ledger(n, s, lo, e, k)
    ensures var n' := n + if HitMapped(s, step, lo, hi) then 1 else 0;
            && n' <= 2 * Ceil(hi - lo) + Allowance(e, k)
            && Ledger(n', Apply(s, step), lo, e + if HitsRefreshed(s, step) then 1 else 0, k)
  {
    if BySweeper(step) {
      SweepStep(n, s, step, lo, e, k);
    } else {
      match step
      case Pass(now) => PassStep(n, s, now, lo, e, k);
      case LockAndCount(worker) => CountStep(n, s, worker, lo, hi, e, k);
      case _ => StoreStep(n, s, step, lo, e, k);
    }
  }

  /** `t` follows `s` by a step that admits and deletes so much more. */
  predicate Follows(s: State, step: Step, t: State, lo: Time, hi: Time, admits: int, refreshes: int) {
    && t == Apply(s, step)
    && admits == (if HitMapped(s, step, lo, hi) then 1 else 0)
    && refreshes == (if During(s, lo, hi) && HitsRefreshed(s, step) then 1 else 0)
  }

  /** A step before the interval. */
  lemma EarlyStep(s: State, step: Step, t: State, lo: Time, hi: Time, k: Stamps)
    requires Shape(s) && s.clock < lo <= hi && t == Apply(s, step) && Shape(t)
    ensures Balance(0, t, lo, hi, 0, k)
  {
    assert Ceil(hi - lo) >= 0;
    if step.Pass? {
      EarlyLedger(s, lo, k);
      PassStep(0, s, step.now, lo, 0, k);
    }
  }

  /** A step in the interval, for the state it leads to. */
  lemma DuringLedger(n: int, s: State, step: Step, t: State, lo: Time, hi: Time, e: nat, k: Stamps, admits: nat, refreshes: nat)
    requires Shape(s) && Shape(t) && lo <= hi && During(s, lo, hi) && Stamped(k, s, step)
    requires Follows(s, step, t, lo, hi, admits, refreshes)
    requires 0 <= n <= 2 * Ceil(hi - lo) + Allowance(e, k) && Ledger(n, s, lo, e, k)
    ensures n + admits <= 2 * Ceil(hi - lo) + Allowance(e, k) && Ledger(n + admits, t, lo, e + refreshes, k)
    ensures lo <= t.clock && refreshes <= 1
  {
    DuringStep(n, s, step, lo, hi, e, k);
    ClockGrows(s, step);
  }

  lemma Balances(n: int, t: State, lo: Time, hi: Time, e: nat, more: nat, k: Stamps)
    requires Shape(t) && lo <= t.clock && more <= 1
    requires 0 <= n <= 2 * Ceil(hi - lo) + Allowance(e, k) && Ledger(n, t, lo, e + more, k)
    ensures Balance(n, t, lo, hi, e + more, k)
  {
    AllowanceGrows(e, k);
  }

  /** A step after the interval. */
  lemma LateStep(s: State, step: Step, t: State, lo: Time, hi: Time, admits: int, refreshes: int)
    requires lo <= hi <= s.clock && Follows(s, step, t, lo, hi, admits, refreshes)
    ensures hi <= t.clock && admits == 0 && refreshes == 0
  {
    ClockGrows(s, step);
  }

  lemma LedgerStep(n: int, s: State, step: Step, t: State, lo: Time, hi: Time, e: nat, k: Stamps, admits: nat, refreshes: nat)
    requires lo <= hi && Balance(n, s, lo, hi, e, k) && (During(s, lo, hi) ==> Stamped(k, s, step))
    requires Follows(s, step, t, lo, hi, admits, refreshes)
    ensures Balance(n + admits, t, lo, hi, e + refreshes, k)
  {
    KeepsShape(s, step);
    if s.clock < lo {
      EarlyStep(s, step, t, lo, hi, k);
    } else if s.clock < hi {
      DuringLedger(n, s, step, t, lo, hi, e, k, admits, refreshes);
      Balances(n + admits, t, lo, hi, e, refreshes, k);
    } else {
      LateStep(s, step, t, lo, hi, admits, refreshes);
    }
  }

  /** What the last step of a run adds. */
  lemma LastStep(begin: Time, steps: seq<Step>, lo: Time, hi: Time) returns (admits: nat, refreshes: nat)
    requires steps != []
    ensures var n := |steps| - 1;
            && Follows(Run(begin, steps[..n]), steps[n], Run(begin, steps), lo, hi, admits, refreshes)
            && AdmittedMapped(begin, steps, lo, hi) == AdmittedMapped(begin, steps[..n], lo, hi) + admits
            && RefreshedIn(begin, steps, lo, hi) == RefreshedIn(begin, steps[..n], lo, hi) + refreshes
  {
    var n := |steps| - 1;
    var s := Run(begin, steps[..n]);
    admits := if HitMapped(s, steps[n], lo, hi) then 1 else 0;
    refreshes := if During(s, lo, hi) && HitsRefreshed(s, steps[n]) then 1 else 0;
  }

  lemma {:induction false} LedgerRun(begin: Time, steps: seq<Step>, lo: Time, hi: Time, k: Stamps)
    requires lo <= hi && StampedIn(k, begin, steps, lo, hi)
    ensures Balance(AdmittedMapped(begin, steps, lo, hi), Run(begin, steps), lo, hi, RefreshedIn(begin, steps, lo, hi), k)
  {
    if steps == [] {
      assert Ceil(hi - lo) >= 0;
    } else {
      var n := |steps| - 1;
      LedgerRun(begin, steps[..n], lo, hi, k);
      var admits, refreshes := LastStep(begin, steps, lo, hi);
      LedgerStep(AdmittedMapped(begin, steps[..n], lo, hi), Run(begin, steps[..n]), steps[n], Run(begin, steps), lo, hi,
                 RefreshedIn(begin, steps[..n], lo, hi), k, admits, refreshes);
    }
  }

  // ---------- The bound for the address: stranded packets ----------

  predicate HitStray(s: State, step: Step, lo: Time, hi: Time) {
    Hit(s, step, lo, hi) && !HitMapped(s, step, lo, hi)
  }

  lemma CountStrays(s: State, worker: Worker, lo: Time, hi: Time)
    requires Shape(s)
    ensures |Strays(Apply(s, LockAndCount(worker)))| + (if HitStray(s, LockAndCount(worker), lo, hi) then 1 else 0) <= |Strays(s)|
  {
    var t := Apply(s, LockAndCount(worker));
    if worker in Strays(s) {
      assert Strays(s) == Strays(t) + {worker};
    } else {
      assert Strays(t) == Strays(s);
    }
  }

  lemma DeleteStrays(s: State)
    requires Shape(s)
    ensures |Strays(Apply(s, Delete))| <= |Strays(s)| + StrandedBy(s, Delete)
  {
    if s.sweeper.Condemning? {
      assert Strays(Apply(s, Delete)) == Strays(s) + HoldersOf(s.held, s.sweeper.o);
    }
  }

  lemma OtherStrays(s: State, step: Step)
    requires Shape(s) && !step.LockAndCount? && !step.Delete?
    ensures Strays(Apply(s, step)) == Strays(s)
  {
  }

  lemma StraysStep(s: State, step: Step, lo: Time, hi: Time)
    requires Shape(s)
    ensures |Strays(Apply(s, step))| + (if HitStray(s, step, lo, hi) then 1 else 0) <= |Strays(s)| + StrandedBy(s, step)
  {
    match step
    case LockAndCount(worker) => CountStrays(s, worker, lo, hi);
    case Delete => DeleteStrays(s);
    case _ => OtherStrays(s, step);
  }

  lemma {:induction false} StraysRun(begin: Time, steps: seq<Step>, lo: Time, hi: Time)
    requires lo <= hi
    ensures Admitted(begin, steps, lo, hi) + (if Run(begin, steps).clock < hi then |Strays(Run(begin, steps))| else 0) <=
            AdmittedMapped(begin, steps, lo, hi) + StrandedIn(begin, steps, lo, hi)
    ensures Run(begin, steps).clock < lo ==> Admitted(begin, steps, lo, hi) == 0
  {
    if steps == [] {
      assert Strays(Start(begin)) == {};
    } else {
      var n := |steps| - 1;
      var s := Run(begin, steps[..n]);
      StraysRun(begin, steps[..n], lo, hi);
      EveryRunShaped(begin, steps[..n]);
      StraysStep(s, steps[n], lo, hi);
      ClockGrows(s, steps[n]);
    }
  }

  /**
   Over every interleaving, any half-open interval admits at most two packets per started second and two more;
   and, beyond that, two for every delete in it that hit an entry refreshed since its stale check, one more if
   there was any, and one for every packet in flight with a deleted entry. When stamps of first counts in
   the interval are settled or prompt, the excess is smaller, as `Allowance` says.
   */
  lemma AdmittedAtMost(begin: Time, steps: seq<Step>, lo: Time, hi: Time, k: Stamps)
    requires lo <= hi && StampedIn(k, begin, steps, lo, hi)
    ensures Admitted(begin, steps, lo, hi) <=
            2 * Ceil(hi - lo) + Allowance(RefreshedIn(begin, steps, lo, hi), k) + StrandedIn(begin, steps, lo, hi)
  {
    LedgerRun(begin, steps, lo, hi, k);
    StraysRun(begin, steps, lo, hi);
  }

  // ---------- How many deletes there can be ----------

  /** The number of periods, rounded up. */
  function Periods(t: Time): int {
    (t + PERIOD - 1) / PERIOD
  }

  /** How many ticks are still due before `hi`. */
  function TicksBefore(t: Time, hi: Time): int {
    if t < hi then (hi - 1 - t) / PERIOD + 1 else 0
  }

  /** How many deletes before `hi` the sweep under way, the tick not yet received and those to come allow. */
  function Credit(s: State, hi: Time): int {
    (if s.sweeper == Waiting || s.sweeper == Leaving then 0 else 1) + (if s.pending then 1 else 0) + TicksBefore(s.nextTick, hi)
  }

  lemma TickSpent(t: Time, now: Time, hi: Time)
    requires t <= now < hi
    ensures TicksBefore(TickAfter(t, now), hi) <= TicksBefore(t, hi) - 1
  {
    var u, q := TickAfter(t, now), (now - t) / PERIOD + 1;
    assert u == t + PERIOD * q && q >= 1;
    if u < hi {
      assert (hi - 1 - t) / PERIOD == (hi - 1 - u + PERIOD * q) / PERIOD == (hi - 1 - u) / PERIOD + q by {
        Quotient(hi - 1 - u, q);
      }
    }
  }

  lemma Quotient(x: Time, q: int)
    ensures (x + PERIOD * q) / PERIOD == x / PERIOD + q
  {
  }

  lemma CreditStep(s: State, step: Step, hi: Time)
    requires Shape(s) && Apply(s, step).clock < hi
    ensures Credit(Apply(s, step), hi) + (if Deletes(s, step) then 1 else 0) <= Credit(s, hi)
  {
    if step.Pass? && s.nextTick <= step.now { TickSpent(s.nextTick, step.now, hi); }
  }

  /** When the interval begins. */
  lemma CreditAtMost(s: State, lo: Time, hi: Time)
    requires Shape(s) && During(s, lo, hi)
    ensures Credit(s, hi) <= Periods(hi - lo) + 2
  {
    assert s.nextTick < hi ==> hi - 1 - s.nextTick + PERIOD <= hi - lo + PERIOD - 1;
    Quotient(hi - 1 - s.nextTick, 1);
  }

  lemma {:induction false} CreditRun(begin: Time, steps: seq<Step>, lo: Time, hi: Time)
    requires lo <= hi
    ensures DeletedIn(begin, steps, lo, hi) <= Periods(hi - lo) + 2
    ensures Run(begin, steps).clock < lo ==> DeletedIn(begin, steps, lo, hi) == 0
    ensures During(Run(begin, steps), lo, hi) ==>
              DeletedIn(begin, steps, lo, hi) + Credit(Run(begin, steps), hi) <= Periods(hi - lo) + 2
  {
    EveryRunShaped(begin, steps);
    assert Periods(hi - lo) >= 0;
    if steps == [] {
      if During(Start(begin), lo, hi) { CreditAtMost(Start(begin), lo, hi); }
    } else {
      var n := |steps| - 1;
      CreditRun(begin, steps[..n], lo, hi);
      EveryRunShaped(begin, steps[..n]);
      CreditRunStep(Run(begin, steps[..n]), steps[n], DeletedIn(begin, steps[..n], lo, hi), lo, hi);
    }
  }

  lemma CreditRunStep(s: State, step: Step, d: nat, lo: Time, hi: Time)
    requires Shape(s) && Shape(Apply(s, step)) && lo <= hi && d <= Periods(hi - lo) + 2
    requires s.clock < lo ==> d == 0
    requires During(s, lo, hi) ==> d + Credit(s, hi) <= Periods(hi - lo) + 2
    ensures var d' := d + if During(s, lo, hi) && Deletes(s, step) then 1 else 0;
            && d' <= Periods(hi - lo) + 2
            && (Apply(s, step).clock < lo ==> d' == 0)
            && (During(Apply(s, step), lo, hi) ==> d' + Credit(Apply(s, step), hi) <= Periods(hi - lo) + 2)
  {
    ClockGrows(s, step);
    if During(Apply(s, step), lo, hi) {
      if s.clock < lo { CreditAtMost(Apply(s, step), lo, hi); } else { CreditStep(s, step, hi); CreditNotNegative(Apply(s, step), hi); }
    }
  }

  lemma CreditNotNegative(s: State, hi: Time)
    ensures Credit(s, hi) >= 0
  {
  }

  lemma {:induction false} RefreshedAreDeleted(begin: Time, steps: seq<Step>, lo: Time, hi: Time)
    ensures RefreshedIn(begin, steps, lo, hi) <= DeletedIn(begin, steps, lo, hi)
  {
    if steps != [] {
      RefreshedAreDeleted(begin, steps[..|steps| - 1], lo, hi);
    }
  }

  /** An interval has at most one delete of an address's entry per started thirty seconds, and two more. */
  lemma DeletedAtMost(begin: Time, steps: seq<Step>, lo: Time, hi: Time)
    requires lo <= hi
    ensures RefreshedIn(begin, steps, lo, hi) <= DeletedIn(begin, steps, lo, hi) <= Periods(hi - lo) + 2
  {
    CreditRun(begin, steps, lo, hi);
    RefreshedAreDeleted(begin, steps, lo, hi);
  }

  /**
   So over every interleaving, and whatever the stamps, an interval admits at most two packets per started
   second, two per started thirty seconds, seven more, and the packets in flight with a deleted entry. For
   one second that is eleven.
   */
  lemma AdmittedAbsolutely(begin: Time, steps: seq<Step>, lo: Time, hi: Time)
    requires lo <= hi
    ensures Admitted(begin, steps, lo, hi) <= 2 * Ceil(hi - lo) + 2 * Periods(hi - lo) + 7 + StrandedIn(begin, steps, lo, hi)
    ensures hi == lo + SECOND ==> Admitted(begin, steps, lo, hi) <= 11 + StrandedIn(begin, steps, lo, hi)
  {
    AnyStamped(begin, steps, lo, hi);
    AdmittedAtMost(begin, steps, lo, hi, AnyStamp);
    DeletedAtMost(begin, steps, lo, hi);
  }

  lemma {:induction false} AnyStamped(begin: Time, steps: seq<Step>, lo: Time, hi: Time)
    ensures StampedIn(AnyStamp, begin, steps, lo, hi)
  {
    if steps != [] {
      AnyStamped(begin, steps[..|steps| - 1], lo, hi);
    }
  }
}
