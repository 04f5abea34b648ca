/**
 Runs that reach the rate limiter's bounds, in a second that starts anywhere: for every number of deletes of
 refreshed entries that a second can have, for every kind of stamps, and with packets in flight stranded.
 */
module RateLimiterReached {
  import opened Collections
  import opened RateLimiter
  import opened RateLimiterAccounts
  import opened RateLimiterRuns

  /** A second, when the run begins, how many packets in flight count as stranded, and what stamps are like. */
  datatype Scene = Scene(begin: Time, lo: Time, stranded: nat, k: Stamps) {
    function Hi(): Time {
      lo + SECOND
    }

    predicate Counts(clock: Time) {
      lo <= clock < Hi()
    }
  }

  /** The run ends in `s`, with `n` packets admitted in the second and `e` refreshed entries deleted in it. */
  ghost predicate Shows(c: Scene, steps: seq<Step>, s: State, n: nat, e: nat) {
    && Run(c.begin, steps) == s && Admitted(c.begin, steps, c.lo, c.Hi()) == n
    && RefreshedIn(c.begin, steps, c.lo, c.Hi()) == e && StrandedIn(c.begin, steps, c.lo, c.Hi()) == c.stranded
    && StampedIn(c.k, c.begin, steps, c.lo, c.Hi())
  }

  lemma Next(c: Scene, steps: seq<Step>, s: State, n: nat, e: nat, step: Step) returns (all: seq<Step>)
    requires Shows(c, steps, s, n, e) && StrandedBy(s, step) == 0 && (c.Counts(s.clock) ==> Stamped(c.k, s, step))
    requires Apply(s, step).clock < c.lo ==> c.stranded == 0 && Strays(Apply(s, step)) == {}
    ensures Shows(c, all, Apply(s, step), n + (if Hit(s, step, c.lo, c.Hi()) then 1 else 0),
                  e + (if c.Counts(s.clock) && HitsRefreshed(s, step) then 1 else 0))
  {
    all := steps + [step];
    assert all[..|steps|] == steps;
  }

  lemma Begins(c: Scene)
    requires c.stranded == 0
    ensures Shows(c, [], Start(c.begin), 0, 0)
  {
    assert Strays(Start(c.begin)) == {};
  }

  // ---------- A few steps at a time ----------

  lemma Wait(c: Scene, steps: seq<Step>, s: State, n: nat, e: nat, now: Time) returns (all: seq<Step>, t: State)
    requires Shows(c, steps, s, n, e) && s.held == map[] && s.clock <= now && (now < c.lo ==> c.stranded == 0)
    ensures Shows(c, all, t, n, e) && t == s.(clock := now, pending := t.pending, nextTick := t.nextTick)
    ensures now < s.nextTick ==> t.pending == s.pending && t.nextTick == s.nextTick
    ensures now == s.nextTick ==> t.pending && t.nextTick == now + PERIOD
  {
    t := Apply(s, Pass(now));
    assert Strays(t) == {};
    all := Next(c, steps, s, n, e, Pass(now));
  }

  lemma StampNow(c: Scene, steps: seq<Step>, s: State, n: nat, e: nat, worker: Worker) returns (all: seq<Step>)
    requires Shows(c, steps, s, n, e) && s.held == map[] && worker !in s.stamps && (s.clock < c.lo ==> c.stranded == 0)
    ensures Shows(c, all, s.(stamps := s.stamps[worker := s.clock]), n, e)
  {
    assert Strays(Apply(s, Stamp(worker))) == {};
    all := Next(c, steps, s, n, e, Stamp(worker));
  }

  /** The state after one more packet through the table's entry. */
  function Delivered(s: State): State
    requires s.entry.Some? && s.entry.value < |s.objects|
  {
    s.(objects := s.objects[s.entry.value := Count(s.objects[s.entry.value], s.clock)])
  }

  /** Worker 0 handles a packet. */
  lemma Deliver(c: Scene, steps: seq<Step>, s: State, n: nat, e: nat) returns (all: seq<Step>)
    requires Shows(c, steps, s, n, e) && s.held == map[] && 0 !in s.stamps && (s.clock < c.lo ==> c.stranded == 0)
    requires s.entry.Some? && s.entry.value < |s.objects|
    requires var w := s.objects[s.entry.value]; w.count > 0 && Admits(w, s.clock)
    ensures Shows(c, all, Delivered(s), n + (if c.Counts(s.clock) then 1 else 0), e)
  {
    var stamped := s.(stamps := s.stamps[0 := s.clock]);
    var loaded := s.(held := map[0 := s.entry.value]);
    all := StampNow(c, steps, s, n, e, 0);
    assert stamped.stamps - {0} == s.stamps;
    assert Apply(stamped, LoadOrStore(0)) == loaded && Strays(loaded) == {};
    all := Next(c, all, stamped, n, e, LoadOrStore(0));
    LockDelivers(s, loaded);
    all := Next(c, all, loaded, n, e, LockAndCount(0));
  }

  lemma LockDelivers(s: State, loaded: State)
    requires s.held == map[] && s.entry.Some? && s.entry.value < |s.objects| && loaded == s.(held := map[0 := s.entry.value])
    ensures Apply(loaded, LockAndCount(0)) == Delivered(s) && Strays(Delivered(s)) == {}
  {
    assert loaded.held - {0} == map[];
  }

  /** The state after a worker with a stamp has stored a new entry. */
  function StoredBy(s: State, worker: Worker): State
    requires worker in s.stamps
  {
    s.(entry := Some(|s.objects|), objects := s.objects + [Window(0, s.stamps[worker])],
       stamps := s.stamps - {worker}, held := map[worker := |s.objects|])
  }

  /** And after it has counted its packet. */
  function OpenedBy(s: State, worker: Worker): State
    requires worker in s.stamps
  {
    s.(entry := Some(|s.objects|), objects := s.objects + [Count(Window(0, s.stamps[worker]), s.clock)],
       stamps := s.stamps - {worker})
  }

  lemma StoreBy(c: Scene, steps: seq<Step>, s: State, n: nat, e: nat, worker: Worker) returns (all: seq<Step>)
    requires Shows(c, steps, s, n, e) && s.held == map[] && s.entry == None && worker in s.stamps
    requires s.clock < c.lo ==> c.stranded == 0
    ensures Shows(c, all, StoredBy(s, worker), n, e)
  {
    assert Apply(s, LoadOrStore(worker)) == StoredBy(s, worker) && Strays(StoredBy(s, worker)) == {};
    all := Next(c, steps, s, n, e, LoadOrStore(worker));
  }

  /** The stamp of a first count is of the scene's kind. */
  predicate GoodStamp(c: Scene, stamp: Time, clock: Time) {
    && stamp <= clock
    && match c.k
       case AnyStamp => true
       case Settled => stamp == clock || clock - stamp >= SECOND
       case Prompt => stamp == clock
  }

  /** The worker that has stored an entry counts its packet; `sweeper` is wherever the sweeper got to meanwhile. */
  lemma CountBy(c: Scene, steps: seq<Step>, s: State, n: nat, e: nat, worker: Worker, sweeper: Sweeper, pending: bool)
    returns (all: seq<Step>)
    requires worker in s.stamps && s.held == map[] && GoodStamp(c, s.stamps[worker], s.clock)
    requires Shows(c, steps, StoredBy(s, worker).(sweeper := sweeper, pending := pending), n, e)
    requires s.clock < c.lo ==> c.stranded == 0
    ensures Shows(c, all, OpenedBy(s, worker).(sweeper := sweeper, pending := pending),
                  n + (if c.Counts(s.clock) then 1 else 0), e)
  {
    var stored := StoredBy(s, worker).(sweeper := sweeper, pending := pending);
    var done := OpenedBy(s, worker).(sweeper := sweeper, pending := pending);
    assert stored.held - {worker} == map[];
    assert stored.objects[|s.objects| := Count(Window(0, s.stamps[worker]), s.clock)] == done.objects;
    assert Apply(stored, LockAndCount(worker)) == done && Strays(done) == {};
    all := Next(c, steps, stored, n, e, LockAndCount(worker));
  }

  lemma OpenBy(c: Scene, steps: seq<Step>, s: State, n: nat, e: nat, worker: Worker) returns (all: seq<Step>)
    requires Shows(c, steps, s, n, e) && s.held == map[] && s.entry == None
    requires worker in s.stamps && GoodStamp(c, s.stamps[worker], s.clock) && (s.clock < c.lo ==> c.stranded == 0)
    ensures Shows(c, all, OpenedBy(s, worker), n + (if c.Counts(s.clock) then 1 else 0), e)
  {
    all := StoreBy(c, steps, s, n, e, worker);
    all := CountBy(c, all, s, n, e, worker, s.sweeper, s.pending);
  }

  /** The sweeper starts a pass and sees the table's entry stale; a packet may be in flight. */
  lemma Condemn(c: Scene, steps: seq<Step>, s: State, n: nat, e: nat) returns (all: seq<Step>)
    requires Shows(c, steps, s, n, e) && s.entry.Some? && s.entry.value < |s.objects| && s.sweeper == Waiting && s.pending
    requires Stale(s.objects[s.entry.value], s.clock) && (s.clock < c.lo ==> c.stranded == 0)
    requires Strays(s) == {} && forall w | w in s.held :: s.entry == Some(s.held[w])
    ensures Shows(c, all, s.(pending := false, sweeper := Condemning(s.entry.value, s.objects[s.entry.value])), n, e)
  {
    all := StartPass(c, steps, s, n, e);
    all := SeeStale(c, all, s.(pending := false, sweeper := Ranging(s.clock)), n, e);
  }

  lemma SameStrays(s: State, t: State)
    requires t.held == s.held && t.entry == s.entry
    ensures Strays(t) == Strays(s)
  {
  }

  lemma StartPass(c: Scene, steps: seq<Step>, s: State, n: nat, e: nat) returns (all: seq<Step>)
    requires Shows(c, steps, s, n, e) && s.sweeper == Waiting && s.pending
    requires Strays(s) == {} && (s.clock < c.lo ==> c.stranded == 0)
    ensures Shows(c, all, s.(pending := false, sweeper := Ranging(s.clock)), n, e)
  {
    var received := s.(pending := false, sweeper := Received);
    SameStrays(s, received);
    all := Next(c, steps, s, n, e, Receive);
    SameStrays(s, s.(pending := false, sweeper := Ranging(s.clock)));
    all := Next(c, all, received, n, e, ReadClock);
  }

  lemma SeeStale(c: Scene, steps: seq<Step>, s: State, n: nat, e: nat) returns (all: seq<Step>)
    requires Shows(c, steps, s, n, e) && s.entry.Some? && s.entry.value < |s.objects| && s.sweeper == Ranging(s.clock)
    requires Stale(s.objects[s.entry.value], s.clock) && (s.clock < c.lo ==> c.stranded == 0)
    requires forall w | w in s.held :: s.entry == Some(s.held[w])
    ensures Shows(c, all, s.(sweeper := Condemning(s.entry.value, s.objects[s.entry.value])), n, e)
  {
    var visiting := s.(sweeper := Visiting(s.clock, s.entry.value));
    assert Strays(visiting) == {} && Strays(s.(sweeper := Condemning(s.entry.value, s.objects[s.entry.value]))) == {};
    all := Next(c, steps, s, n, e, Visit);
    all := Next(c, all, visiting, n, e, CheckStale);
  }

  /** A new entry with an old stamp is seen stale before its first packet is counted. */
  lemma OpenCondemned(c: Scene, steps: seq<Step>, s: State, n: nat, e: nat, worker: Worker) returns (all: seq<Step>)
    requires Shows(c, steps, s, n, e) && s.held == map[] && s.entry == None && s.sweeper == Waiting && s.pending
    requires worker in s.stamps && Stale(Window(0, s.stamps[worker]), s.clock) && c.k != Prompt && c.lo <= s.clock
    ensures Shows(c, all, OpenedBy(s, worker).(pending := false, sweeper := Condemning(|s.objects|, Window(0, s.stamps[worker]))),
                  n + (if c.Counts(s.clock) then 1 else 0), e)
  {
    all := StoreBy(c, steps, s, n, e, worker);
    assert Strays(StoredBy(s, worker)) == {};
    all := Condemn(c, all, StoredBy(s, worker), n, e);
    all := CountBy(c, all, s, n, e, worker, Condemning(|s.objects|, Window(0, s.stamps[worker])), false);
  }

  /** The sweeper deletes the entry, which has counted packets meanwhile, and ends its pass. */
  lemma CutOff(c: Scene, steps: seq<Step>, s: State, n: nat, e: nat) returns (all: seq<Step>)
    requires Shows(c, steps, s, n, e) && s.held == map[] && c.Counts(s.clock)
    requires s.sweeper.Condemning? && s.sweeper.o < |s.objects| && s.objects[s.sweeper.o] != s.sweeper.seen
    ensures Shows(c, all, s.(entry := None, sweeper := Waiting), n, e + 1)
  {
    assert HoldersOf(s.held, s.sweeper.o) == {};
    all := Next(c, steps, s, n, e, Delete);
    all := EndPass(c, all, s.(entry := None, sweeper := Leaving), n, e + 1);
  }

  lemma EndPass(c: Scene, steps: seq<Step>, s: State, n: nat, e: nat) returns (all: seq<Step>)
    requires Shows(c, steps, s, n, e) && s.sweeper == Leaving && c.lo <= s.clock
    ensures Shows(c, all, s.(sweeper := Waiting), n, e)
  {
    all := Next(c, steps, s, n, e, EndSweep);
  }

  // ---------- Phases ----------

  /** No entry, no packet in flight, and the sweeper waiting. */
  predicate Clear(s: State, clock: Time) {
    s.entry == None && s.held == map[] && s.sweeper == Waiting && s.clock == clock && 0 !in s.stamps
  }

  /** The table's entry is the last one, with this window. */
  predicate Last(s: State, w: Window, clock: Time) {
    && s.entry.Some? && s.entry.value == |s.objects| - 1 && s.objects[s.entry.value] == w
    && s.held == map[] && s.clock == clock && 0 !in s.stamps
  }

  /** One packet, at this or a later time. */
  lemma Later(c: Scene, steps: seq<Step>, s: State, n: nat, e: nat, w: Window, now: Time)
    returns (all: seq<Step>, t: State)
    requires Shows(c, steps, s, n, e) && Last(s, w, s.clock) && w.count > 0 && Admits(w, now) && s.clock <= now
    requires now < c.lo ==> c.stranded == 0
    ensures Shows(c, all, t, n + (if c.Counts(now) then 1 else 0), e) && Last(t, Count(w, now), now)
    ensures t.sweeper == s.sweeper && |t.objects| == |s.objects| && t.stamps == s.stamps
    ensures now < s.nextTick ==> t.pending == s.pending && t.nextTick == s.nextTick
  {
    all, t := Wait(c, steps, s, n, e, now);
    all := Deliver(c, all, t, n, e);
    t := Delivered(t);
  }

  /** Two packets at the same time, a second after the current window's start. */
  lemma NextWindow(c: Scene, steps: seq<Step>, s: State, n: nat, e: nat, w: Window, now: Time)
    returns (all: seq<Step>, t: State)
    requires Shows(c, steps, s, n, e) && Last(s, w, s.clock) && w.count > 0 && now - w.start >= SECOND
    requires s.clock <= now && c.Counts(now)
    ensures Shows(c, all, t, n + 2, e) && Last(t, Window(2, now), now)
    ensures t.sweeper == s.sweeper && |t.objects| == |s.objects| && t.stamps == s.stamps
    ensures now < s.nextTick ==> t.pending == s.pending && t.nextTick == s.nextTick
  {
    all, t := Later(c, steps, s, n, e, w, now);
    all, t := Later(c, all, t, n + 1, e, Window(1, now), now);
  }

  /** Two packets through a new entry. */
  lemma OpenTwo(c: Scene, steps: seq<Step>, s: State, n: nat, e: nat, worker: Worker)
    returns (all: seq<Step>, t: State)
    requires Shows(c, steps, s, n, e) && s.entry == None && s.held == map[] && c.Counts(s.clock)
    requires worker in s.stamps && 0 !in s.stamps - {worker}
    requires s.clock - SECOND < s.stamps[worker] && GoodStamp(c, s.stamps[worker], s.clock)
    ensures Shows(c, all, t, n + 2, e) && Last(t, Window(2, s.stamps[worker]), s.clock)
  {
    all := OpenBy(c, steps, s, n, e, worker);
    all, t := Later(c, all, OpenedBy(s, worker), n + 1, e, Window(1, s.stamps[worker]), s.clock);
  }

  /** A worker that stamped just before the second stores an entry: two packets, and two more when its window is over. */
  lemma OldStamp(c: Scene, steps: seq<Step>, s: State, n: nat, e: nat) returns (all: seq<Step>, t: State)
    requires Shows(c, steps, s, n, e) && Clear(s, s.clock) && c.lo <= s.clock < c.lo - 1 + SECOND && c.k == AnyStamp
    requires 3 in s.stamps && s.stamps[3] == c.lo - 1
    ensures Shows(c, all, t, n + 4, e)
  {
    all, t := OpenTwo(c, steps, s, n, e, 3);
    all, t := NextWindow(c, all, t, n + 2, e, Window(2, c.lo - 1), c.lo - 1 + SECOND);
  }

  /** A worker stamps and stores an entry at once: two packets. */
  lemma FreshStamp(c: Scene, steps: seq<Step>, s: State, n: nat, e: nat) returns (all: seq<Step>, t: State)
    requires Shows(c, steps, s, n, e) && Clear(s, s.clock) && c.Counts(s.clock)
    ensures Shows(c, all, t, n + 2, e)
  {
    all := StampNow(c, steps, s, n, e, 0);
    all, t := OpenTwo(c, all, s.(stamps := s.stamps[0 := s.clock]), n, e, 0);
  }

  // ---------- The first delete ----------

  /** Just before the second ends a tick comes; the run begins three periods earlier. */
  function TickTime(c: Scene): Time {
    c.lo - 2 + SECOND
  }

  predicate WellTimed(c: Scene) {
    c.begin == TickTime(c) - 3 * PERIOD && c.stranded == 0
  }

  /** Workers 1 and 2 stamp; worker 0 stamps, stores an entry and counts a packet. */
  lemma Opening(c: Scene) returns (steps: seq<Step>, t: State)
    requires WellTimed(c)
    ensures Shows(c, steps, t, 0, 0) && Last(t, Window(1, c.begin), c.begin) && t.sweeper == Waiting
    ensures t.stamps == map[1 := c.begin, 2 := c.begin] && !t.pending && t.nextTick == c.begin + PERIOD && |t.objects| == 1
  {
    Begins(c);
    t := Start(c.begin);
    steps := StampNow(c, [], t, 0, 0, 1);
    t := t.(stamps := map[1 := c.begin]);
    steps := StampNow(c, steps, t, 0, 0, 2);
    t := t.(stamps := map[1 := c.begin, 2 := c.begin]);
    steps, t := OpenFresh(c, steps, t);
  }

  lemma OpenFresh(c: Scene, steps: seq<Step>, s: State) returns (all: seq<Step>, t: State)
    requires WellTimed(c) && Shows(c, steps, s, 0, 0) && Clear(s, c.begin) && s.objects == []
    ensures Shows(c, all, t, 0, 0) && Last(t, Window(1, c.begin), c.begin) && |t.objects| == 1
    ensures t.stamps == s.stamps && t.sweeper == s.sweeper && t.pending == s.pending && t.nextTick == s.nextTick
  {
    all := StampNow(c, steps, s, 0, 0, 0);
    t := s.(stamps := s.stamps[0 := s.clock]);
    all := OpenBy(c, all, t, 0, 0, 0);
    t := OpenedBy(t, 0);
    assert t.stamps == s.stamps;
  }

  /** At the first tick the sweeper sees that entry stale; the second tick waits. */
  lemma FirstCondemned(c: Scene) returns (steps: seq<Step>, t: State)
    requires WellTimed(c)
    ensures Shows(c, steps, t, 0, 0) && Last(t, Window(1, c.begin), c.begin + 2 * PERIOD)
    ensures t.sweeper == Condemning(0, Window(1, c.begin)) && |t.objects| == 1
    ensures t.stamps == map[1 := c.begin, 2 := c.begin] && t.pending && t.nextTick == TickTime(c)
  {
    steps, t := Opening(c);
    steps, t := Wait(c, steps, t, 0, 0, c.begin + PERIOD);
    assert Strays(t) == {};
    steps := Condemn(c, steps, t, 0, 0);
    t := t.(pending := false, sweeper := Condemning(0, Window(1, c.begin)));
    steps, t := Wait(c, steps, t, 0, 0, c.begin + 2 * PERIOD);
  }

  /** A packet refreshes it three nanoseconds before the second; worker 3 stamps one nanosecond before the second. */
  lemma FirstRefreshed(c: Scene) returns (steps: seq<Step>, t: State)
    requires WellTimed(c)
    ensures Shows(c, steps, t, 0, 0) && Last(t, Window(1, c.lo - 3), c.lo - 1)
    ensures t.sweeper == Condemning(0, Window(1, c.begin)) && |t.objects| == 1
    ensures t.stamps == map[1 := c.begin, 2 := c.begin, 3 := c.lo - 1] && t.pending && t.nextTick == TickTime(c)
  {
    steps, t := FirstCondemned(c);
    steps, t := Later(c, steps, t, 0, 0, Window(1, c.begin), c.lo - 3);
    steps, t := ThirdStamp(c, steps, t);
  }

  lemma ThirdStamp(c: Scene, steps: seq<Step>, s: State) returns (all: seq<Step>, t: State)
    requires WellTimed(c) && Shows(c, steps, s, 0, 0) && Last(s, Window(1, c.lo - 3), c.lo - 3)
    requires 3 !in s.stamps && s.nextTick == TickTime(c)
    ensures Shows(c, all, t, 0, 0) && Last(t, Window(1, c.lo - 3), c.lo - 1) && t.sweeper == s.sweeper && |t.objects| == |s.objects|
    ensures t.stamps == s.stamps[3 := c.lo - 1] && t.pending == s.pending && t.nextTick == s.nextTick
  {
    all, t := Wait(c, steps, s, 0, 0, c.lo - 1);
    all := StampNow(c, all, t, 0, 0, 3);
    t := t.(stamps := t.stamps[3 := c.lo - 1]);
  }

  /** One packet at the start of the second, two when the window is over, and the delete. */
  lemma FirstDelete(c: Scene) returns (steps: seq<Step>, t: State)
    requires WellTimed(c)
    ensures Shows(c, steps, t, 3, 1) && Clear(t, TickTime(c) - 1)
    ensures t.stamps == map[1 := c.begin, 2 := c.begin, 3 := c.lo - 1] && t.pending && t.nextTick == TickTime(c)
  {
    steps, t := FirstRefreshed(c);
    steps, t := Later(c, steps, t, 0, 0, Window(1, c.lo - 3), c.lo);
    steps, t := NextWindow(c, steps, t, 1, 0, Window(2, c.lo - 3), TickTime(c) - 1);
    steps := CutOff(c, steps, t, 3, 0);
    t := t.(entry := None, sweeper := Waiting);
  }

  // ---------- Further deletes ----------

  /**
   The sweeper starts its next pass, for the tick that waited. A worker with an old stamp stores an entry, which
   is seen stale, counts two packets, and is deleted at time `later`.
   */
  lemma AnotherDelete(c: Scene, steps: seq<Step>, s: State, n: nat, e: nat, worker: Worker, later: Time)
    returns (all: seq<Step>, t: State)
    requires Shows(c, steps, s, n, e) && Clear(s, s.clock) && s.pending && c.k != Prompt
    requires worker in s.stamps && Stale(Window(0, s.stamps[worker]), s.clock)
    requires s.clock <= later && c.Counts(s.clock) && c.Counts(later)
    ensures Shows(c, all, t, n + 2, e + 1) && Clear(t, later) && t.stamps == s.stamps - {worker}
    ensures later == s.nextTick ==> t.pending
  {
    all, t := RefreshNew(c, steps, s, n, e, worker);
    all, t := Wait(c, all, t, n + 2, e, later);
    all := CutOff(c, all, t, n + 2, e);
    t := t.(entry := None, sweeper := Waiting);
  }

  lemma RefreshNew(c: Scene, steps: seq<Step>, s: State, n: nat, e: nat, worker: Worker)
    returns (all: seq<Step>, t: State)
    requires Shows(c, steps, s, n, e) && Clear(s, s.clock) && s.pending && c.k != Prompt
    requires worker in s.stamps && Stale(Window(0, s.stamps[worker]), s.clock) && c.Counts(s.clock)
    ensures Shows(c, all, t, n + 2, e) && Last(t, Window(2, s.clock), s.clock) && t.nextTick == s.nextTick
    ensures t.sweeper == Condemning(|t.objects| - 1, Window(0, s.stamps[worker])) && t.stamps == s.stamps - {worker}
  {
    all := OpenCondemned(c, steps, s, n, e, worker);
    t := OpenedBy(s, worker).(pending := false, sweeper := Condemning(|s.objects|, Window(0, s.stamps[worker])));
    all := Deliver(c, all, t, n + 1, e);
    t := Delivered(t);
  }

  /** One, two or three deletes of refreshed entries in the second. */
  lemma SomeDeletes(c: Scene, e: nat) returns (steps: seq<Step>, t: State)
    requires WellTimed(c) && 1 <= e <= 3 && (c.k == Prompt ==> e == 1)
    ensures Shows(c, steps, t, 1 + 2 * e, e) && Clear(t, t.clock) && c.lo <= t.clock < c.lo - 1 + SECOND
    ensures 3 in t.stamps && t.stamps[3] == c.lo - 1
  {
    steps, t := FirstDelete(c);
    if e >= 2 { steps, t := AnotherDelete(c, steps, t, 3, 1, 1, TickTime(c)); }
    if e == 3 { steps, t := AnotherDelete(c, steps, t, 5, 2, 2, TickTime(c)); }
  }

  // ---------- The bounds are reached ----------

  lemma NoDeletesOldStamp(c: Scene) returns (steps: seq<Step>, t: State)
    requires c == Scene(c.lo - 1, c.lo, 0, AnyStamp)
    ensures Shows(c, steps, t, 4, 0)
  {
    var lo := c.lo;
    t := Start(lo - 1);
    Begins(c);
    steps := StampNow(c, [], t, 0, 0, 3);
    t := t.(stamps := map[3 := lo - 1]);
    steps, t := Wait(c, steps, t, 0, 0, lo);
    steps, t := OldStamp(c, steps, t, 0, 0);
  }

  lemma NoDeletesFresh(c: Scene) returns (steps: seq<Step>, t: State)
    requires c == Scene(c.lo - 1, c.lo, 0, c.k)
    ensures Shows(c, steps, t, 3, 0)
  {
    var lo := c.lo;
    t := Start(lo - 1);
    Begins(c);
    steps := StampNow(c, [], t, 0, 0, 0);
    t := t.(stamps := map[0 := lo - 1]);
    steps := OpenBy(c, steps, t, 0, 0, 0);
    t := OpenedBy(t, 0);
    steps, t := Later(c, steps, t, 0, 0, Window(1, lo - 1), lo);
    steps, t := NextWindow(c, steps, t, 1, 0, Window(2, lo - 1), lo - 1 + SECOND);
  }

  lemma WithDeletes(c: Scene, e: nat) returns (steps: seq<Step>, t: State)
    requires WellTimed(c) && 1 <= e <= 3 && (c.k == Prompt ==> e == 1)
    ensures Shows(c, steps, t, 2 + Allowance(e, c.k), e)
  {
    steps, t := SomeDeletes(c, e);
    if c.k == AnyStamp {
      steps, t := OldStamp(c, steps, t, 1 + 2 * e, e);
    } else {
      steps, t := FreshStamp(c, steps, t, 1 + 2 * e, e);
    }
  }

  /**
   The bound of `AdmittedAtMost` is reached, in a second that starts anywhere, for every number of deletes of
   refreshed entries that `DeletedAtMost` allows: four packets without any, then seven, nine and eleven; three,
   five, seven and nine when stamps are settled; three, and five with one, when they are prompt.
   */
  lemma BoundReached(lo: Time, e: nat, k: Stamps) returns (begin: Time, steps: seq<Step>)
    requires e <= 3 && (k == Prompt ==> e <= 1)
    ensures RefreshedIn(begin, steps, lo, lo + SECOND) == e && StrandedIn(begin, steps, lo, lo + SECOND) == 0
    ensures StampedIn(k, begin, steps, lo, lo + SECOND)
    ensures Admitted(begin, steps, lo, lo + SECOND) == 2 + Allowance(e, k)
  {
    var t;
    if e == 0 {
      begin := lo - 1;
      if k == AnyStamp {
        steps, t := NoDeletesOldStamp(Scene(begin, lo, 0, k));
      } else {
        steps, t := NoDeletesFresh(Scene(begin, lo, 0, k));
      }
    } else {
      begin := lo - 2 + SECOND - 3 * PERIOD;
      steps, t := WithDeletes(Scene(begin, lo, 0, k), e);
    }
  }

  // ---------- Stranded packets ----------

  /** Workers 1 and 2 stamp forty seconds before the second and worker 3 just before it; one tick waits. */
  lemma ThreeStamps(c: Scene) returns (steps: seq<Step>, t: State)
    requires c.begin == c.lo - 40 * SECOND && c.stranded == 0
    ensures Shows(c, steps, t, 0, 0) && Clear(t, c.lo) && t.pending && t.objects == []
    ensures t.stamps == map[1 := c.begin, 2 := c.begin, 3 := c.lo - 1]
  {
    Begins(c);
    t := Start(c.begin);
    steps := StampNow(c, [], t, 0, 0, 1);
    t := t.(stamps := map[1 := c.begin]);
    steps := StampNow(c, steps, t, 0, 0, 2);
    t := t.(stamps := map[1 := c.begin, 2 := c.begin]);
    steps, t := TickThenStamp(c, steps, t);
  }

  lemma TickThenStamp(c: Scene, steps: seq<Step>, s: State) returns (all: seq<Step>, t: State)
    requires c.begin == c.lo - 40 * SECOND && c.stranded == 0 && Shows(c, steps, s, 0, 0)
    requires Clear(s, c.begin) && s.nextTick == c.begin + PERIOD && 3 !in s.stamps
    ensures Shows(c, all, t, 0, 0) && Clear(t, c.lo) && t.pending && t.objects == s.objects
    ensures t.stamps == s.stamps[3 := c.lo - 1]
  {
    all, t := Wait(c, steps, s, 0, 0, c.begin + PERIOD);
    all, t := Wait(c, all, t, 0, 0, c.lo - 1);
    all := StampNow(c, all, t, 0, 0, 3);
    t := t.(stamps := t.stamps[3 := c.lo - 1]);
    all, t := Wait(c, all, t, 0, 0, c.lo);
  }

  /** The two old stamps' workers hold one new entry when the second begins. */
  function BothHold(s: State, stamp: Time): State {
    s.(entry := Some(0), objects := [Window(0, stamp)], stamps := s.stamps - {1} - {2}, held := map[1 := 0, 2 := 0])
  }

  lemma TwoInFlight(c: Scene, steps: seq<Step>, s: State) returns (all: seq<Step>)
    requires Shows(c, steps, s, 0, 0) && Clear(s, c.lo) && s.objects == [] && 1 in s.stamps && 2 in s.stamps
    ensures Shows(c, all, BothHold(s, s.stamps[1]), 0, 0)
  {
    all := StoreBy(c, steps, s, 0, 0, 1);
    all := Next(c, all, StoredBy(s, 1), 0, 0, LoadOrStore(2));
    assert map[1 := 0][2 := 0] == map[1 := 0, 2 := 0];
    assert Apply(StoredBy(s, 1), LoadOrStore(2)) == BothHold(s, s.stamps[1]);
  }

  /** The entry is seen stale and deleted before either of them counts. */
  lemma BothStranded(c: Scene, steps: seq<Step>, s: State) returns (all: seq<Step>, t: State)
    requires c.stranded == 0 && Shows(c, steps, s, 0, 0) && Clear(s, c.lo) && s.pending && s.objects == []
    requires 1 in s.stamps && 2 in s.stamps && Stale(Window(0, s.stamps[1]), c.lo)
    ensures Shows(c.(stranded := 2), all, t, 0, 0)
    ensures t == BothHold(s, s.stamps[1]).(entry := None, pending := false, sweeper := Leaving)
  {
    all, t := HeldCondemned(c, steps, s);
    assert HoldersOf(t.held, 0) == {1, 2};
    all := Strand(c, all, t, 2);
    t := t.(entry := None, sweeper := Leaving);
  }

  lemma HeldCondemned(c: Scene, steps: seq<Step>, s: State) returns (all: seq<Step>, t: State)
    requires c.stranded == 0 && Shows(c, steps, s, 0, 0) && Clear(s, c.lo) && s.pending && s.objects == []
    requires 1 in s.stamps && 2 in s.stamps && Stale(Window(0, s.stamps[1]), c.lo)
    ensures Shows(c, all, t, 0, 0)
    ensures t == BothHold(s, s.stamps[1]).(pending := false, sweeper := Condemning(0, Window(0, s.stamps[1])))
  {
    all := TwoInFlight(c, steps, s);
    t := BothHold(s, s.stamps[1]);
    assert Strays(t) == {};
    all := Condemn(c, all, t, 0, 0);
    t := t.(pending := false, sweeper := Condemning(0, Window(0, s.stamps[1])));
  }

  lemma Strand(c: Scene, steps: seq<Step>, s: State, f: nat) returns (all: seq<Step>)
    requires Shows(c, steps, s, 0, 0) && c.Counts(s.clock) && StrandedBy(s, Delete) == f && !HitsRefreshed(s, Delete)
    ensures Shows(c.(stranded := c.stranded + f), all, Apply(s, Delete), 0, 0)
  {
    all := steps + [Delete];
    assert all[..|steps|] == steps;
  }

  /** Then both are admitted. */
  lemma BothCount(c: Scene, steps: seq<Step>, s: State) returns (all: seq<Step>, t: State)
    requires Shows(c, steps, s, 0, 0) && s.clock == c.lo && s.entry == None && s.sweeper == Leaving && c.k == AnyStamp
    requires s.held == map[1 := 0, 2 := 0] && 0 !in s.stamps && |s.objects| == 1 && Stale(s.objects[0], c.lo)
    ensures Shows(c, all, t, 2, 0) && Clear(t, c.lo) && t.stamps == s.stamps
  {
    all := Next(c, steps, s, 0, 0, LockAndCount(1));
    assert map[1 := 0, 2 := 0] - {1} == map[2 := 0];
    t := s.(objects := [Window(1, c.lo)], held := map[2 := 0]);
    assert Apply(s, LockAndCount(1)) == t;
    all, t := SecondCount(c, all, t);
  }

  lemma SecondCount(c: Scene, steps: seq<Step>, s: State) returns (all: seq<Step>, t: State)
    requires Shows(c, steps, s, 1, 0) && s.clock == c.lo && s.entry == None && s.sweeper == Leaving && c.k == AnyStamp
    requires s.held == map[2 := 0] && 0 !in s.stamps && s.objects == [Window(1, c.lo)]
    ensures Shows(c, all, t, 2, 0) && Clear(t, c.lo) && t.stamps == s.stamps
  {
    all := Next(c, steps, s, 1, 0, LockAndCount(2));
    assert map[2 := 0] - {2} == map[];
    t := s.(objects := [Window(2, c.lo)], held := map[]);
    assert Apply(s, LockAndCount(2)) == t;
    all := EndPass(c, all, t, 2, 0);
    t := t.(sweeper := Waiting);
  }

  /** Stranded packets count on top: two of them, and the four a second admits without them. */
  lemma StrandedReached(lo: Time) returns (begin: Time, steps: seq<Step>)
    ensures RefreshedIn(begin, steps, lo, lo + SECOND) == 0 && StrandedIn(begin, steps, lo, lo + SECOND) == 2
    ensures Admitted(begin, steps, lo, lo + SECOND) == 2 + Allowance(0, AnyStamp) + 2
  {
    begin := lo - 40 * SECOND;
    var t;
    steps, t := StrandedRun(Scene(begin, lo, 0, AnyStamp));
    steps, t := OldStamp(Scene(begin, lo, 2, AnyStamp), steps, t, 2, 0);
  }

  lemma StrandedRun(c: Scene) returns (steps: seq<Step>, t: State)
    requires c == Scene(c.lo - 40 * SECOND, c.lo, 0, AnyStamp)
    ensures Shows(c.(stranded := 2), steps, t, 2, 0) && Clear(t, c.lo) && 3 in t.stamps && t.stamps[3] == c.lo - 1
  {
    steps, t := ThreeStamps(c);
    steps, t := BothStranded(c, steps, t);
    steps, t := BothCount(c.(stranded := 2), steps, t);
  }
}
