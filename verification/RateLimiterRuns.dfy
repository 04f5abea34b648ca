/**
 The rate limiter under concurrency, for one source address. A worker stamps a new entry, loads or stores an
 entry in the table, and later locks it and counts its packet. The sweeper receives a tick, reads the clock,
 takes the entry from the table, locks it to see whether it was stale at that reading, and later deletes the
 table's entry. Each of these is one step, any number of workers interleave with the sweeper, and entries are
 numbered in the order of their creation. The ticker ticks every thirty seconds and keeps one tick that is not
 yet received.
 */
module RateLimiterRuns {
  import opened Collections
  import opened RateLimiter
  import opened RateLimiterAccounts

  type Worker = nat

  const PERIOD: Time := 30 * SECOND

  /** Where the sweeper is. A pass over the table visits a key at most once. */
  datatype Sweeper =
    | Waiting
    | Received                       // a tick was received; the clock is still to be read
    | Ranging(now: Time)             // the table is being walked, with this clock reading
    | Visiting(now: Time, o: nat)    // this entry was taken from the table
    | Condemning(o: nat, seen: Window)  // it was stale, with this window, and is about to be deleted
    | Leaving                        // the rest of the table is being walked

  datatype State = State(
    entry: Option<nat>,
    objects: seq<Window>,
    stamps: map<Worker, Time>,
    held: map<Worker, nat>,
    sweeper: Sweeper,
    pending: bool,
    nextTick: Time,
    clock: Time)

  datatype Step =
    | Pass(now: Time)
    | Stamp(worker: Worker)
    | LoadOrStore(worker: Worker)
    | LockAndCount(worker: Worker)
    | Receive
    | ReadClock
    | Visit
    | CheckStale
    | Delete
    | EndSweep

  /** The entry the worker has in hand. */
  predicate Holds(s: State, worker: Worker) {
    worker in s.held && s.held[worker] < |s.objects|
  }

  /** The first tick after `now`, when the next one is due at `t`. */
  function TickAfter(t: Time, now: Time): Time {
    if now < t then t else t + PERIOD * ((now - t) / PERIOD + 1)
  }

  /** A step of a worker, or of the clock and the ticker. */
  function AfterWorker(s: State, step: Step): State {
    match step
    case Pass(now) =>
      if now < s.clock then s
      else s.(clock := now, pending := s.pending || now >= s.nextTick, nextTick := TickAfter(s.nextTick, now))
    case Stamp(worker) =>
      if worker in s.stamps || worker in s.held then s else s.(stamps := s.stamps[worker := s.clock])
    case LoadOrStore(worker) =>
      if worker !in s.stamps then s
      else if s.entry.Some? then s.(stamps := s.stamps - {worker}, held := s.held[worker := s.entry.value])
      else s.(entry := Some(|s.objects|), objects := s.objects + [Window(0, s.stamps[worker])],
              stamps := s.stamps - {worker}, held := s.held[worker := |s.objects|])
    case LockAndCount(worker) =>
      if !Holds(s, worker) then s
      else
        var o := s.held[worker];
        s.(objects := s.objects[o := Count(s.objects[o], s.clock)], held := s.held - {worker})
    case _ => s
  }

  /** A step of the sweeper. */
  function AfterSweeper(s: State, step: Step): State {
    match step
    case Receive => if s.sweeper != Waiting || !s.pending then s else s.(sweeper := Received, pending := false)
    case ReadClock => if s.sweeper != Received then s else s.(sweeper := Ranging(s.clock))
    case Visit =>
      if !s.sweeper.Ranging? || s.entry == None then s else s.(sweeper := Visiting(s.sweeper.now, s.entry.value))
    case CheckStale =>
      if !s.sweeper.Visiting? || s.sweeper.o >= |s.objects| then s
      else if Stale(s.objects[s.sweeper.o], s.sweeper.now) then
        s.(sweeper := Condemning(s.sweeper.o, s.objects[s.sweeper.o]))
      else s.(sweeper := Leaving)
    case Delete => if !s.sweeper.Condemning? then s else s.(entry := None, sweeper := Leaving)
    case EndSweep => if s.sweeper.Ranging? || s.sweeper == Leaving then s.(sweeper := Waiting) else s
    case _ => s
  }

  predicate BySweeper(step: Step) {
    step.Receive? || step.ReadClock? || step.Visit? || step.CheckStale? || step.Delete? || step.EndSweep?
  }

  function Apply(s: State, step: Step): State {
    if BySweeper(step) then AfterSweeper(s, step) else AfterWorker(s, step)
  }

  function Start(begin: Time): State {
    State(None, [], map[], map[], Waiting, false, begin + PERIOD, begin)
  }

  function Run(begin: Time, steps: seq<Step>): State {
    if steps == [] then Start(begin) else Apply(Run(begin, steps[..|steps| - 1]), steps[|steps| - 1])
  }

  // ---------- What is counted ----------

  /** The step admits a packet in the half-open interval from `lo` to `hi`. */
  predicate Hit(s: State, step: Step, lo: Time, hi: Time) {
    && step.LockAndCount? && Holds(s, step.worker) && lo <= s.clock < hi
    && Admits(s.objects[s.held[step.worker]], s.clock)
  }

  /** The step admits a packet there through entry `o`. */
  predicate HitOf(s: State, step: Step, o: nat, lo: Time, hi: Time) {
    Hit(s, step, lo, hi) && s.held[step.worker] == o
  }

  /** The step admits a packet there through the entry in the table. */
  predicate HitMapped(s: State, step: Step, lo: Time, hi: Time) {
    Hit(s, step, lo, hi) && s.entry == Some(s.held[step.worker])
  }

  /** The step deletes the table's entry. */
  predicate Deletes(s: State, step: Step) {
    step.Delete? && s.sweeper.Condemning?
  }

  /** The step deletes an entry that has counted a packet since it was seen stale. */
  predicate HitsRefreshed(s: State, step: Step) {
    Deletes(s, step) && s.sweeper.o < |s.objects| && s.objects[s.sweeper.o] != s.sweeper.seen
  }

  /** The workers that hold entry `o`. */
  function HoldersOf(held: map<Worker, nat>, o: nat): set<Worker> {
    set w | w in held && held[w] == o
  }

  /** How many packets in flight the step leaves with an entry that is no longer in the table. */
  function StrandedBy(s: State, step: Step): nat {
    if Deletes(s, step) then |HoldersOf(s.held, s.sweeper.o)| else 0
  }

  /** The workers that hold an entry which is no longer in the table. */
  function Strays(s: State): set<Worker> {
    set w | w in s.held && s.entry != Some(s.held[w])
  }

  /** How many packets a run admits in the half-open interval from `lo` to `hi`. */
  function Admitted(begin: Time, steps: seq<Step>, lo: Time, hi: Time): nat {
    if steps == [] then 0
    else
      var n := |steps| - 1;
      Admitted(begin, steps[..n], lo, hi) + if Hit(Run(begin, steps[..n]), steps[n], lo, hi) then 1 else 0
  }

  function AdmittedBy(begin: Time, steps: seq<Step>, o: nat, lo: Time, hi: Time): nat {
    if steps == [] then 0
    else
      var n := |steps| - 1;
      AdmittedBy(begin, steps[..n], o, lo, hi) + if HitOf(Run(begin, steps[..n]), steps[n], o, lo, hi) then 1 else 0
  }

  function AdmittedMapped(begin: Time, steps: seq<Step>, lo: Time, hi: Time): nat {
    if steps == [] then 0
    else
      var n := |steps| - 1;
      AdmittedMapped(begin, steps[..n], lo, hi) + if HitMapped(Run(begin, steps[..n]), steps[n], lo, hi) then 1 else 0
  }

  predicate During(s: State, lo: Time, hi: Time) {
    lo <= s.clock < hi
  }

  /** How many deletes there are in the interval. */
  function DeletedIn(begin: Time, steps: seq<Step>, lo: Time, hi: Time): nat {
    if steps == [] then 0
    else
      var n := |steps| - 1;
      var s := Run(begin, steps[..n]);
      DeletedIn(begin, steps[..n], lo, hi) + if During(s, lo, hi) && Deletes(s, steps[n]) then 1 else 0
  }

  /** How many deletes in the interval hit a refreshed entry. */
  function RefreshedIn(begin: Time, steps: seq<Step>, lo: Time, hi: Time): nat {
    if steps == [] then 0
    else
      var n := |steps| - 1;
      var s := Run(begin, steps[..n]);
      RefreshedIn(begin, steps[..n], lo, hi) + if During(s, lo, hi) && HitsRefreshed(s, steps[n]) then 1 else 0
  }

  /** How many packets in flight are stray when the interval begins, or are stranded by a delete in it. */
  function StrandedIn(begin: Time, steps: seq<Step>, lo: Time, hi: Time): nat {
    if Run(begin, steps).clock < lo || steps == [] then |Strays(Run(begin, steps))|
    else
      var n := |steps| - 1;
      var s := Run(begin, steps[..n]);
      StrandedIn(begin, steps[..n], lo, hi) + if During(s, lo, hi) then StrandedBy(s, steps[n]) else 0
  }

  /** The first count of an entry finds a stamp of this kind. */
  predicate Stamped(k: Stamps, s: State, step: Step) {
    step.LockAndCount? && Holds(s, step.worker) && s.objects[s.held[step.worker]].count == 0 ==>
      var start := s.objects[s.held[step.worker]].start;
      match k
      case AnyStamp => true
      case Settled => start == s.clock || s.clock - start >= SECOND
      case Prompt => start == s.clock
  }

  /** So do all first counts in the interval. */
  predicate StampedIn(k: Stamps, begin: Time, steps: seq<Step>, lo: Time, hi: Time) {
    steps != [] ==>
      var n := |steps| - 1;
      var s := Run(begin, steps[..n]);
      StampedIn(k, begin, steps[..n], lo, hi) && (During(s, lo, hi) ==> Stamped(k, s, steps[n]))
  }

  // ---------- The shape of reachable states ----------

  predicate Shape(s: State) {
    && (s.entry.Some? ==> s.entry.value < |s.objects|)
    && (forall w | w in s.held :: s.held[w] < |s.objects|)
    && (forall w | w in s.stamps :: s.stamps[w] <= s.clock && w !in s.held)
    && (forall o | 0 <= o < |s.objects| :: s.objects[o].count >= 0 && s.objects[o].start <= s.clock)
    && (s.sweeper.Visiting? || s.sweeper.Condemning? ==> s.entry == Some(s.sweeper.o))
    && (s.sweeper.Ranging? || s.sweeper.Visiting? ==> s.sweeper.now <= s.clock)
    && (s.sweeper.Condemning? ==> Condemned(s, s.sweeper.o, s.sweeper.seen))
    && s.clock < s.nextTick
  }

  /** What has been seen stale stays stale, and a refreshed entry has counted a packet. */
  predicate Condemned(s: State, o: nat, seen: Window)
    requires o < |s.objects|
  {
    Stale(seen, s.clock) && (s.objects[o] != seen ==> s.objects[o].count >= 1 && s.objects[o].start > seen.start)
  }

  lemma TickLater(t: Time, now: Time)
    ensures now < TickAfter(t, now) && t <= TickAfter(t, now)
    ensures now >= t ==> t + PERIOD <= TickAfter(t, now)
  {
  }

  lemma PassShape(s: State, now: Time)
    requires Shape(s)
    ensures Shape(AfterWorker(s, Pass(now)))
  {
    TickLater(s.nextTick, now);
  }

  lemma WorkerShape(s: State, step: Step)
    requires Shape(s) && !step.Pass?
    ensures Shape(AfterWorker(s, step))
  {
  }

  lemma SweeperShape(s: State, step: Step)
    requires Shape(s)
    ensures Shape(AfterSweeper(s, step))
  {
  }

  lemma KeepsShape(s: State, step: Step)
    requires Shape(s)
    ensures Shape(Apply(s, step))
  {
    if BySweeper(step) { SweeperShape(s, step); } else if step.Pass? { PassShape(s, step.now); } else { WorkerShape(s, step); }
  }

  lemma {:induction false} EveryRunShaped(begin: Time, steps: seq<Step>)
    ensures Shape(Run(begin, steps))
  {
    if steps != [] {
      EveryRunShaped(begin, steps[..|steps| - 1]);
      KeepsShape(Run(begin, steps[..|steps| - 1]), steps[|steps| - 1]);
    }
  }

  /** Time never runs backwards. */
  lemma ClockGrows(s: State, step: Step)
    ensures s.clock <= Apply(s, step).clock
    ensures !step.Pass? ==> s.clock == Apply(s, step).clock
  {
  }
}
