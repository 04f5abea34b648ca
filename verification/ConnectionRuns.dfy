/**
 The relay's table of outbound sockets under concurrency. Creating a connection holds a mutex: it looks for the
 key again, compares the count with the cap, reads last-used times for a sample and evicts the oldest, dials and
 stores. Removals take the same mutex. Using a stored connection, the idle sweep's look at a connection, and the
 updates of the count at a sweep's end take none, so they fall between any two of those steps.
 */
module ConnectionRuns {
  import opened Collections
  import opened ConnectionKey
  import opened ConnectionPool

  /** A connection the sweep has seen idle, and when. */
  datatype Condemned = Condemned(key: string, target: Socket, at: Time)

  /** The running sweep: the clock reading it started with, and a connection it has seen idle. */
  datatype Sweep = NoSweep | Sweep(started: Time, idle: Option<Condemned>)

  /** Who holds the mutex to create a connection for `key`, since when. */
  datatype Creating =
    | Nobody
    | Locked(key: string, since: Time)                           // the key is not in the table
    | Sampling(key: string, since: Time, seen: map<string, Time>)  // the table is full; these times have been read
    | Ready(key: string, since: Time)                            // there is room

  /**
   The table together with the removals that a running sweep has not yet subtracted again, those of all
   finished sweeps, and those each running clear has not yet reported.
   */
  datatype Machine = Machine(pool: Pool, sweeping: nat, finished: nat, clears: seq<nat>, sweep: Sweep, creating: Creating,
                             clock: Time)

  datatype Step =
    | Pass(now: Time)
    | Touch(key: string)
    | Lock(key: string)
    | CheckCap
    | Look(key: string)
    | Evict(victim: string)
    | Finish(dial: Option<Socket>)
    | IdleStart
    | SeeIdle(key: string)
    | IdleRemove
    | IdleEnd
    | ClearStart
    | ClearRemove(task: nat, key: string, target: Socket)
    | ClearEnd(task: nat)

  const Start := Machine(Pool(map[], map[], {}, 0, 0), 0, 0, [], NoSweep, Nobody, 0)

  function SampleOf(p: Pool): nat {
    if |p.connections| < SAMPLE_SIZE then |p.connections| else SAMPLE_SIZE
  }

  /** The whole sample has been read, and `victim` was used longest ago in it. */
  predicate OldestSeen(p: Pool, seen: map<string, Time>, victim: string) {
    |seen| == SampleOf(p) && victim in seen && victim in p.connections && forall k | k in seen :: seen[victim] <= seen[k]
  }

  /** A step of a worker. */
  function AfterWorker(limit: int, m: Machine, step: Step): Machine {
    match step
    case Pass(now) => if now < m.clock then m else m.(clock := now)
    case Touch(key) => m.(pool := Touched(m.pool, key, m.clock))
    case Lock(key) =>
      if m.creating != Nobody then m
      else if key in m.pool.connections then m.(pool := Touched(m.pool, key, m.clock))
      else m.(creating := Locked(key, m.clock))
    case CheckCap =>
      if !m.creating.Locked? then m
      else if m.pool.count >= limit then m.(creating := Sampling(m.creating.key, m.creating.since, map[]))
      else m.(creating := Ready(m.creating.key, m.creating.since))
    case Look(key) =>
      if !m.creating.Sampling? || key !in m.pool.connections || key in m.creating.seen
         || |m.creating.seen| >= SampleOf(m.pool) || m.pool.connections[key] !in m.pool.lastUsed
      then m
      else m.(creating := m.creating.(seen := m.creating.seen[key := m.pool.lastUsed[m.pool.connections[key]]]))
    case Evict(victim) =>
      if !m.creating.Sampling? then m
      else if m.pool.connections == map[] then m.(creating := Ready(m.creating.key, m.creating.since))
      else if !OldestSeen(m.pool, m.creating.seen, victim) then m
      else m.(pool := Evicted(m.pool, victim), creating := Ready(m.creating.key, m.creating.since))
    case Finish(dial) =>
      if !m.creating.Ready? || (dial.Some? && dial.value in m.pool.lastUsed) then m
      else if dial == None then m.(creating := Nobody)
      else m.(pool := Created(m.pool, m.creating.key, dial.value, m.clock), creating := Nobody)
    case _ => m
  }

  /** The sweep, which compares with the clock reading of its start, finds `key` unused for five minutes. */
  predicate IdleSince(m: Machine, key: string) {
    && m.sweep.Sweep? && key in m.pool.connections && m.pool.connections[key] in m.pool.lastUsed
    && m.sweep.started - m.pool.lastUsed[m.pool.connections[key]] > IDLE_AFTER
  }

  /** A step of the idle sweep. */
  function AfterSweep(m: Machine, step: Step): Machine {
    match step
    case IdleStart => if m.sweep != NoSweep then m else m.(sweep := Sweep(m.clock, None))
    case SeeIdle(key) =>
      if !IdleSince(m, key) || m.sweep.idle != None then m
      else m.(sweep := m.sweep.(idle := Some(Condemned(key, m.pool.connections[key], m.clock))))
    case IdleRemove =>
      if m.creating != Nobody || m.sweep == NoSweep || m.sweep.idle == None then m
      else
        var Condemned(key, target, _) := m.sweep.idle.value;
        m.(pool := Removed(m.pool, key, target), sweep := m.sweep.(idle := None),
           sweeping := m.sweeping + if Stored(m.pool, key, target) then 1 else 0)
    case IdleEnd =>
      if m.sweep == NoSweep || m.sweep.idle != None then m
      else m.(pool := m.pool.(count := m.pool.count - m.sweeping, gauge := m.pool.gauge - m.sweeping),
              sweep := NoSweep, sweeping := 0, finished := m.finished + m.sweeping)
    case _ => m
  }

  /** A step of a clear. */
  function AfterClear(m: Machine, step: Step): Machine {
    match step
    case ClearStart => m.(clears := m.clears + [0])
    case ClearRemove(task, key, target) =>
      if m.creating != Nobody || task >= |m.clears| then m
      else m.(pool := Removed(m.pool, key, target),
              clears := m.clears[task := m.clears[task] + if Stored(m.pool, key, target) then 1 else 0])
    case ClearEnd(task) =>
      if task >= |m.clears| then m
      else m.(pool := m.pool.(gauge := m.pool.gauge - m.clears[task]), clears := m.clears[task := 0])
    case _ => m
  }

  function Apply(limit: int, m: Machine, step: Step): Machine {
    if step.IdleStart? || step.SeeIdle? || step.IdleRemove? || step.IdleEnd? then AfterSweep(m, step)
    else if step.ClearStart? || step.ClearRemove? || step.ClearEnd? then AfterClear(m, step)
    else AfterWorker(limit, m, step)
  }

  function Run(limit: int, steps: seq<Step>): Machine {
    if steps == [] then Start else Apply(limit, Run(limit, steps[..|steps| - 1]), steps[|steps| - 1])
  }

  /** When nothing falls between its steps, the creating section does to the table what `Acquired` says. */
  lemma AloneIsAcquired(limit: int, m: Machine, key: string, dial: Option<Socket>)
    requires m.creating == Nobody && (dial.Some? ==> dial.value !in m.pool.lastUsed)
    ensures key in m.pool.connections ==>
              Apply(limit, m, Lock(key)) == m.(pool := Acquired(m.pool, limit, key, m.clock, dial, ""))
    ensures key !in m.pool.connections && m.pool.count < limit ==>
              Apply(limit, Apply(limit, Apply(limit, m, Lock(key)), CheckCap), Finish(dial)) ==
              m.(pool := Acquired(m.pool, limit, key, m.clock, dial, ""))
  {
    if key !in m.pool.connections && m.pool.count < limit {
      var ready := m.(creating := Ready(key, m.clock));
      assert Apply(limit, Apply(limit, m, Lock(key)), CheckCap) == ready;
      assert Apply(limit, ready, Finish(dial)) == m.(pool := Acquired(m.pool, limit, key, m.clock, dial, ""));
    }
  }

  /** So it does at the cap, once the sample is read. */
  lemma AloneAtCap(limit: int, m: Machine, key: string, dial: Option<Socket>, seen: map<string, Time>, victim: string)
    requires m.creating == Sampling(key, m.clock, seen) && (dial.Some? ==> dial.value !in m.pool.lastUsed)
    requires key !in m.pool.connections && m.pool.count >= limit && OldestSeen(m.pool, seen, victim)
    ensures Apply(limit, Apply(limit, m, Evict(victim)), Finish(dial)) ==
            m.(pool := Acquired(m.pool, limit, key, m.clock, dial, victim), creating := Nobody)
  {
    var ready := m.(pool := Evicted(m.pool, victim), creating := Ready(key, m.clock));
    assert Apply(limit, m, Evict(victim)) == ready;
    assert ready.pool.lastUsed == m.pool.lastUsed;
  }

  // ---------- The counters ----------

  function Sum(s: seq<nat>): nat {
    if s == [] then 0 else Sum(s[..|s| - 1]) + s[|s| - 1]
  }

  lemma {:induction false} SumUpdate(s: seq<nat>, i: nat, v: nat)
    requires i < |s|
    ensures Sum(s[i := v]) == Sum(s) - s[i] + v
  {
    var n := |s| - 1;
    if i < n {
      assert s[i := v][..n] == s[..n][i := v];
      SumUpdate(s[..n], i, v);
    } else {
      assert s[i := v][..n] == s[..n];
    }
  }

  lemma SumAppend(s: seq<nat>, v: nat)
    ensures Sum(s + [v]) == Sum(s) + v
  {
    assert (s + [v])[..|s|] == s;
  }

  /** No socket is stored under two keys. */
  predicate Injective(m: map<string, Socket>) {
    forall k, k' | k in m && k' in m && m[k] == m[k'] :: k == k'
  }

  lemma DropValue(m: map<string, Socket>, key: string)
    requires Injective(m) && key in m
    ensures Injective(m - {key}) && (m - {key}).Values == m.Values - {m[key]}
  {
    var q := m - {key};
    forall s | s in m.Values - {m[key]}
      ensures s in q.Values
    {
      var k :| k in m && m[k] == s;
      assert k in q && q[k] == s;
    }
  }

  lemma PutValue(m: map<string, Socket>, key: string, socket: Socket)
    requires Injective(m) && key !in m && socket !in m.Values
    ensures Injective(m[key := socket]) && m[key := socket].Values == m.Values + {socket}
  {
    var q := m[key := socket];
    forall s | s in m.Values
      ensures s in q.Values
    {
      var k :| k in m && m[k] == s;
      assert k in q && q[k] == s;
    }
    assert q[key] == socket;
    assert forall k | k in m :: m[k] in m.Values;
  }

  /** Each stored socket is open, each open socket is stored, under one key. */
  predicate SocketsMatch(p: Pool) {
    p.open == p.connections.Values && Injective(p.connections) && Timed(p)
  }

  /** The laws of the counters. */
  predicate Lawful(limit: int, m: Machine) {
    && SocketsMatch(m.pool)
    && m.pool.count == |m.pool.connections| - m.finished
    && m.pool.gauge == |m.pool.connections| + m.sweeping + Sum(m.clears)
    && m.pool.count <= limit
    && (m.creating != Nobody ==> m.creating.key !in m.pool.connections)
    && (m.creating.Ready? ==> m.pool.count < limit)
  }

  lemma RemoveKeeps(p: Pool, key: string, target: Socket)
    requires SocketsMatch(p)
    ensures SocketsMatch(Removed(p, key, target))
    ensures |Removed(p, key, target).connections| == |p.connections| - if Stored(p, key, target) then 1 else 0
  {
    if Stored(p, key, target) {
      DropSize(p.connections, {key});
      DropValue(p.connections, key);
    }
  }

  lemma CreateKeeps(p: Pool, key: string, socket: Socket, now: Time)
    requires SocketsMatch(p) && key !in p.connections && socket !in p.lastUsed
    ensures SocketsMatch(Created(p, key, socket, now))
    ensures |Created(p, key, socket, now).connections| == |p.connections| + 1
  {
    PutSize(p.connections, key, socket);
    PutValue(p.connections, key, socket);
  }

  lemma EvictKeeps(limit: int, m: Machine, victim: string)
    requires limit > 0 && Lawful(limit, m)
    ensures Lawful(limit, AfterWorker(limit, m, Evict(victim)))
  {
    if m.creating.Sampling? && m.pool.connections != map[] && OldestSeen(m.pool, m.creating.seen, victim) {
      RemoveKeeps(m.pool, victim, m.pool.connections[victim]);
    }
  }

  lemma FinishKeeps(limit: int, m: Machine, dial: Option<Socket>)
    requires Lawful(limit, m)
    ensures Lawful(limit, AfterWorker(limit, m, Finish(dial)))
  {
    if m.creating.Ready? && dial.Some? && dial.value !in m.pool.lastUsed {
      CreateKeeps(m.pool, m.creating.key, dial.value, m.clock);
    }
  }

  lemma UseKeeps(limit: int, m: Machine, step: Step)
    requires Lawful(limit, m) && (step.Pass? || step.Touch? || step.Lock? || step.CheckCap? || step.Look?)
    ensures Lawful(limit, AfterWorker(limit, m, step))
  {
  }

  lemma IdleKeeps(limit: int, m: Machine, step: Step)
    requires Lawful(limit, m)
    ensures Lawful(limit, AfterSweep(m, step))
  {
    if step.IdleRemove? && m.sweep != NoSweep && m.sweep.idle != None {
      RemoveKeeps(m.pool, m.sweep.idle.value.key, m.sweep.idle.value.target);
    }
  }

  lemma ClearKeeps(limit: int, m: Machine, step: Step)
    requires Lawful(limit, m)
    ensures Lawful(limit, AfterClear(m, step))
  {
    if step.ClearStart? {
      SumAppend(m.clears, 0);
    } else if (step.ClearRemove? || step.ClearEnd?) && step.task < |m.clears| {
      if step.ClearRemove? { RemoveKeeps(m.pool, step.key, step.target); }
      SumUpdate(m.clears, step.task, AfterClear(m, step).clears[step.task]);
    }
  }

  lemma StepKeeps(limit: int, m: Machine, step: Step)
    requires limit > 0 && Lawful(limit, m)
    ensures Lawful(limit, Apply(limit, m, step))
  {
    IdleKeeps(limit, m, step);
    ClearKeeps(limit, m, step);
    match step
    case Evict(victim) => EvictKeeps(limit, m, victim);
    case Finish(dial) => FinishKeeps(limit, m, dial);
    case _ => if step.Pass? || step.Touch? || step.Lock? || step.CheckCap? || step.Look? { UseKeeps(limit, m, step); }
  }

  /** The counter laws hold over every interleaving. */
  lemma {:induction false} EveryRunLawful(limit: int, steps: seq<Step>)
    requires limit > 0
    ensures Lawful(limit, Run(limit, steps))
  {
    if steps != [] {
      EveryRunLawful(limit, steps[..|steps| - 1]);
      StepKeeps(limit, Run(limit, steps[..|steps| - 1]), steps[|steps| - 1]);
    }
  }

  /**
   The intended mirror holds exactly while no finished sweep has removed anything; the table then respects
   its cap, and otherwise exceeds it by at most the number of removals of finished sweeps.
   */
  lemma MirrorIff(limit: int, steps: seq<Step>)
    requires limit > 0
    ensures var m := Run(limit, steps);
            && (m.pool.count == |m.pool.connections| <==> m.finished == 0)
            && |m.pool.connections| <= limit + m.finished
            && (m.sweeping == 0 && Sum(m.clears) == 0 ==> m.pool.gauge == |m.pool.connections|)
  {
    EveryRunLawful(limit, steps);
  }

  // ---------- Last use ----------

  /** The step hands out the connection of `key`: it uses the stored one, or stores a new one. */
  predicate Hands(m: Machine, step: Step, key: string) {
    match step
    case Touch(k) => k == key && key in m.pool.connections
    case Lock(k) => k == key && key in m.pool.connections && m.creating == Nobody
    case Finish(dial) => dial.Some? && dial.value !in m.pool.lastUsed && m.creating.Ready? && m.creating.key == key
    case _ => false
  }

  /** When the run last handed out the connection of `key`. */
  function LastHanded(limit: int, steps: seq<Step>, key: string): Option<Time> {
    if steps == [] then None
    else
      var n := |steps| - 1;
      var m := Run(limit, steps[..n]);
      if Hands(m, steps[n], key) then Some(m.clock) else LastHanded(limit, steps[..n], key)
  }

  predicate Remembered(p: Pool, key: string, last: Option<Time>) {
    key in p.connections ==> p.connections[key] in p.lastUsed && last == Some(p.lastUsed[p.connections[key]])
  }

  lemma UseStep(limit: int, m: Machine, step: Step, key: string, last: Option<Time>)
    requires SocketsMatch(m.pool) && Remembered(m.pool, key, last)
    ensures Remembered(Apply(limit, m, step).pool, key, if Hands(m, step, key) then Some(m.clock) else last)
  {
  }

  /** Over every interleaving, a stored connection's last-used time is when it was last handed out. */
  lemma {:induction false} LastUsedIsLastHanded(limit: int, steps: seq<Step>, key: string)
    requires limit > 0
    ensures Remembered(Run(limit, steps).pool, key, LastHanded(limit, steps, key))
  {
    if steps != [] {
      var n := |steps| - 1;
      LastUsedIsLastHanded(limit, steps[..n], key);
      EveryRunLawful(limit, steps[..n]);
      UseStep(limit, Run(limit, steps[..n]), steps[n], key, LastHanded(limit, steps[..n], key));
    }
  }

  /**
   Over every interleaving, a sweep that is looking for idle connections takes `key` for one exactly when its
   connection was last handed out more than five minutes before the sweep started.
   */
  lemma SeenIdleIff(limit: int, steps: seq<Step>, key: string)
    requires limit > 0 && key in Run(limit, steps).pool.connections
    requires Run(limit, steps).sweep.Sweep? && Run(limit, steps).sweep.idle == None
    ensures var m := Run(limit, steps); var last := LastHanded(limit, steps, key);
            && last.Some?
            && (Apply(limit, m, SeeIdle(key)).sweep.idle == Some(Condemned(key, m.pool.connections[key], m.clock)) <==>
                m.sweep.started - last.value > IDLE_AFTER)
            && (m.sweep.started - last.value <= IDLE_AFTER ==> Apply(limit, m, SeeIdle(key)) == m)
  {
    LastUsedIsLastHanded(limit, steps, key);
  }

  // ---------- What sweeps and evictions have seen ----------

  /** The connection's last use was early enough when it was seen, or it has been handed out since. */
  predicate SeenFairly(p: Pool, c: Condemned, started: Time) {
    Stored(p, c.key, c.target) && c.target in p.lastUsed ==> started - p.lastUsed[c.target] > IDLE_AFTER || p.lastUsed[c.target] >= c.at
  }

  /** What was read of `k` is its last use, or it has been handed out since the creating section began. */
  predicate ReadFairly(p: Pool, seen: map<string, Time>, since: Time, k: string) {
    && k in seen && k in p.connections && p.connections[k] in p.lastUsed && seen[k] <= p.lastUsed[p.connections[k]]
    && (p.lastUsed[p.connections[k]] == seen[k] || p.lastUsed[p.connections[k]] >= since)
  }

  predicate Dated(m: Machine) {
    && (forall s | s in m.pool.lastUsed :: m.pool.lastUsed[s] <= m.clock)
    && (m.creating != Nobody ==> m.creating.since <= m.clock)
    && (m.creating.Sampling? ==> forall k | k in m.creating.seen :: ReadFairly(m.pool, m.creating.seen, m.creating.since, k))
    && (m.sweep.Sweep? && m.sweep.idle.Some? ==> m.sweep.idle.value.at <= m.clock && SeenFairly(m.pool, m.sweep.idle.value, m.sweep.started))
  }

  lemma WorkerDated(limit: int, m: Machine, step: Step)
    requires SocketsMatch(m.pool) && Dated(m)
    ensures Dated(AfterWorker(limit, m, step))
  {
  }

  lemma SweepDated(m: Machine, step: Step)
    requires SocketsMatch(m.pool) && Dated(m)
    ensures Dated(AfterSweep(m, step))
  {
  }

  lemma ClearDated(m: Machine, step: Step)
    requires SocketsMatch(m.pool) && Dated(m)
    ensures Dated(AfterClear(m, step))
  {
  }

  lemma {:induction false} EveryRunDated(limit: int, steps: seq<Step>)
    requires limit > 0
    ensures Dated(Run(limit, steps))
  {
    if steps != [] {
      var n := |steps| - 1;
      EveryRunDated(limit, steps[..n]);
      EveryRunLawful(limit, steps[..n]);
      WorkerDated(limit, Run(limit, steps[..n]), steps[n]);
      SweepDated(Run(limit, steps[..n]), steps[n]);
      ClearDated(Run(limit, steps[..n]), steps[n]);
    }
  }

  /**
   Over every interleaving, a connection that the sweep removes was last handed out more than five minutes before
   the sweep started, or not before the sweep saw it idle. `UsedIsRemoved` shows that the latter happens.
   */
  lemma RemovedOnlyIdle(limit: int, steps: seq<Step>, key: string)
    requires limit > 0 && key in Run(limit, steps).pool.connections
    requires key !in Apply(limit, Run(limit, steps), IdleRemove).pool.connections
    ensures var m := Run(limit, steps); var last := LastHanded(limit, steps, key);
            && last.Some? && m.sweep.Sweep? && m.sweep.idle.Some?
            && (m.sweep.started - last.value > IDLE_AFTER || last.value >= m.sweep.idle.value.at)
  {
    EveryRunDated(limit, steps);
    LastUsedIsLastHanded(limit, steps, key);
  }

  /**
   Over every interleaving, an eviction happens only at the cap, after the whole sample was read: 64 connections or
   the whole table. The victim was last handed out no later than any other of the sample, or not before the creating
   section began.
   */
  lemma EvictsLeastRecent(limit: int, steps: seq<Step>, victim: string, k: string)
    requires limit > 0 && victim in Run(limit, steps).pool.connections
    requires victim !in Apply(limit, Run(limit, steps), Evict(victim)).pool.connections
    ensures var m := Run(limit, steps);
            && m.creating.Sampling? && |m.creating.seen| == SampleOf(m.pool) && victim in m.creating.seen
            && (k in m.creating.seen ==>
                  var v, w := LastHanded(limit, steps, victim), LastHanded(limit, steps, k);
                  v.Some? && w.Some? && (v.value <= w.value || v.value >= m.creating.since))
  {
    EveryRunDated(limit, steps);
    LastUsedIsLastHanded(limit, steps, victim);
    LastUsedIsLastHanded(limit, steps, k);
    var m := Run(limit, steps);
    assert m.creating.Sampling? && OldestSeen(m.pool, m.creating.seen, victim);
    assert ReadFairly(m.pool, m.creating.seen, m.creating.since, victim);
    if k in m.creating.seen {
      assert ReadFairly(m.pool, m.creating.seen, m.creating.since, k);
    }
  }

  // ---------- The excess is reached ----------

  lemma OneMore(limit: int, steps: seq<Step>, x: Step)
    ensures Run(limit, steps + [x]) == Apply(limit, Run(limit, steps), x)
  {
    assert (steps + [x])[..|steps|] == steps;
  }

  /** Only sockets numbered below `n` have been opened. */
  predicate NumberedBelow(m: Machine, n: nat) {
    forall s | s in m.pool.lastUsed :: s < n
  }

  /** Keys that are all different. */
  ghost predicate Distinct(keys: nat -> string) {
    forall m, n | keys(m) == keys(n) :: m == n
  }

  /** The table has only such keys. */
  ghost predicate OnlyKeys(m: Machine, keys: nat -> string) {
    forall k | k in m.pool.connections :: exists n :: k == keys(n)
  }

  /** Opening a socket below the cap. */
  lemma Opens(limit: int, m: Machine, key: string, used: nat) returns (m': Machine)
    requires NumberedBelow(m, used) && m.pool.count < limit && key !in m.pool.connections && m.creating == Nobody
    ensures m' == Apply(limit, Apply(limit, Apply(limit, m, Lock(key)), CheckCap), Finish(Some(used)))
    ensures m' == m.(pool := Created(m.pool, key, used, m.clock))
    ensures NumberedBelow(m', used + 1) && |m'.pool.connections| == |m.pool.connections| + 1
  {
    PutSize(m.pool.connections, key, used);
    m' := m.(pool := Created(m.pool, key, used, m.clock));
  }

  /** A sweep that starts more than five minutes later sees the socket idle. */
  lemma SeenIdle(limit: int, m: Machine, key: string, target: Socket, now: Time) returns (m': Machine)
    requires Stored(m.pool, key, target) && target in m.pool.lastUsed && m.sweep == NoSweep
    requires m.clock <= now && now - m.pool.lastUsed[target] > IDLE_AFTER
    ensures m' == Apply(limit, Apply(limit, Apply(limit, m, Pass(now)), IdleStart), SeeIdle(key))
    ensures m' == m.(clock := now, sweep := Sweep(now, Some(Condemned(key, target, now))))
  {
    m' := m.(clock := now, sweep := Sweep(now, Some(Condemned(key, target, now))));
  }

  /** Sweeping the only socket away takes two off the count. */
  lemma SweptAway(limit: int, m: Machine, key: string, target: Socket) returns (m': Machine)
    requires m.pool.connections == map[key := target] && m.sweeping == 0 && m.creating == Nobody
    requires m.sweep.Sweep? && m.sweep.idle.Some? && m.sweep.idle.value.key == key && m.sweep.idle.value.target == target
    ensures m' == Apply(limit, Apply(limit, Apply(limit, m, IdleRemove), IdleEnd), Pass(m.clock))
    ensures m'.pool.connections == map[] && m'.pool.count == m.pool.count - 2 && m'.pool.lastUsed == m.pool.lastUsed
    ensures m'.finished == m.finished + 1 && m'.sweeping == 0 && m'.sweep == NoSweep && m'.creating == Nobody
  {
    assert map[key := target] - {key} == map[];
    m' := Apply(limit, Apply(limit, m, IdleRemove), IdleEnd);
  }

  /** The table is empty between sweeps, and the count is as far below zero as sockets were swept away. */
  predicate DriftedBy(m: Machine, d: nat) {
    && m.pool.connections == map[] && m.pool.count == 0 - d && m.creating == Nobody
    && m.finished == d && m.sweeping == 0 && m.sweep == NoSweep && NumberedBelow(m, d)
  }

  /** Opening one socket and, after five minutes, sweeping it away, `d` times. */
  lemma {:induction false} Drifted(keys: nat -> string, limit: int, d: nat) returns (steps: seq<Step>, m: Machine)
    requires limit > 0
    ensures Run(limit, steps) == m && DriftedBy(m, d)
  {
    steps, m := [], Start;
    if d > 0 {
      steps, m := Drifted(keys, limit, d - 1);
      steps, m := Continue(keys(0), limit, steps, m, d - 1);
    }
  }

  /** A connection that has not been used for five minutes is seen idle. */
  lemma OpenedThenIdle(key: string, limit: int, steps: seq<Step>, m: Machine, d: nat) returns (steps': seq<Step>, m': Machine)
    requires limit > 0 && Run(limit, steps) == m && DriftedBy(m, d)
    ensures Run(limit, steps') == m' && m'.pool.connections == map[key := d] && d in m'.pool.lastUsed && NumberedBelow(m', d + 1)
    ensures m'.sweep.Sweep? && m'.sweep.idle.Some? && m'.sweep.idle.value.key == key && m'.sweep.idle.value.target == d
    ensures m'.sweeping == 0 && m'.creating == Nobody && m'.finished == d && m'.pool.count == 1 - d
  {
    var now := m.clock + IDLE_AFTER + 1;
    steps' := Appended(limit, steps, [Lock(key), CheckCap, Finish(Some(d))]);
    m' := Opens(limit, m, key, d);
    assert m.pool.connections[key := d] == map[key := d];
    steps' := Appended(limit, steps', [Pass(now), IdleStart, SeeIdle(key)]);
    m' := SeenIdle(limit, m', key, d, now);
  }

  lemma Continue(key: string, limit: int, steps: seq<Step>, m: Machine, d: nat) returns (steps': seq<Step>, m': Machine)
    requires limit > 0 && Run(limit, steps) == m && DriftedBy(m, d)
    ensures Run(limit, steps') == m' && DriftedBy(m', d + 1)
  {
    steps', m' := OpenedThenIdle(key, limit, steps, m, d);
    steps' := Appended(limit, steps', [IdleRemove, IdleEnd, Pass(m'.clock)]);
    m' := SweptAway(limit, m', key, d);
  }

  /** A connection handed out after the sweep has seen it idle is removed all the same. */
  lemma UsedIsRemoved(limit: int, key: string) returns (steps: seq<Step>)
    requires limit > 0
    ensures var m := Run(limit, steps);
            && key in m.pool.connections && LastHanded(limit, steps, key) == Some(m.clock)
            && key !in Run(limit, steps + [IdleRemove]).pool.connections
  {
    var m;
    steps, m := OpenedThenIdle(key, limit, [], Start, 0);
    OneMore(limit, steps, Touch(key));
    var all := steps + [Touch(key)];
    assert all[..|steps|] == steps;
    OneMore(limit, all, IdleRemove);
    steps := all;
  }

  lemma Appended(limit: int, steps: seq<Step>, more: seq<Step>) returns (all: seq<Step>)
    requires |more| == 3
    ensures all == steps + more
    ensures Run(limit, all) == Apply(limit, Apply(limit, Apply(limit, Run(limit, steps), more[0]), more[1]), more[2])
  {
    OneMore(limit, steps, more[0]);
    OneMore(limit, steps + [more[0]], more[1]);
    OneMore(limit, steps + [more[0]] + [more[1]], more[2]);
    all := steps + more;
    assert all == steps + [more[0]] + [more[1]] + [more[2]];
  }

  /** The first `n` keys are in use, after `d` sockets were swept away. */
  ghost predicate FilledTo(m: Machine, keys: nat -> string, d: nat, n: nat) {
    && |m.pool.connections| == n && m.pool.count == n - d && m.finished == d && NumberedBelow(m, d + n) && m.creating == Nobody
    && OnlyKeys(m, keys) && forall j: nat | j >= n :: keys(j) !in m.pool.connections
  }

  /** Opening the next one meets no eviction as long as the drifted count is below the cap. */
  lemma OpensNext(keys: nat -> string, limit: int, m: Machine, d: nat, n: nat) returns (m': Machine)
    requires Distinct(keys) && FilledTo(m, keys, d, n) && n - d < limit
    ensures m' == Apply(limit, Apply(limit, Apply(limit, m, Lock(keys(n))), CheckCap), Finish(Some(d + n)))
    ensures FilledTo(m', keys, d, n + 1)
  {
    m' := Opens(limit, m, keys(n), d + n);
  }

  lemma FillOne(keys: nat -> string, limit: int, steps: seq<Step>, m: Machine, d: nat, n: nat)
    returns (all: seq<Step>, m': Machine)
    requires Distinct(keys) && Run(limit, steps) == m && FilledTo(m, keys, d, n) && n - d < limit
    ensures Run(limit, all) == m' && FilledTo(m', keys, d, n + 1)
  {
    m' := OpensNext(keys, limit, m, d, n);
    all := Appended(limit, steps, [Lock(keys(n)), CheckCap, Finish(Some(d + n))]);
  }

  lemma DriftedIsFilled(m: Machine, keys: nat -> string, d: nat)
    requires DriftedBy(m, d)
    ensures FilledTo(m, keys, d, 0)
  {
  }

  lemma {:induction false} Filled(keys: nat -> string, limit: int, d: nat, n: nat) returns (steps: seq<Step>, m: Machine)
    requires Distinct(keys) && limit > 0 && n <= limit + d
    ensures Run(limit, steps) == m && FilledTo(m, keys, d, n)
    decreases n
  {
    if n == 0 {
      steps, m := Drifted(keys, limit, d);
      DriftedIsFilled(m, keys, d);
    } else {
      steps, m := Filled(keys, limit, d, n - 1);
      steps, m := FillOne(keys, limit, steps, m, d, n - 1);
    }
  }

  lemma SameFront(front: string, x: string, y: string)
    requires front + x == front + y
    ensures x == y
  {
    assert x == (front + x)[|front|..] && y == (front + y)[|front|..];
  }

  /** The keys of one client towards one destination differ in the client's port. */
  lemma PortsDiffer(dest: UDPAddr, client: Text.IPv4, m: nat, n: nat)
    requires Key(dest, V4(client, m)) == Key(dest, V4(client, n))
    ensures m == n
  {
    var front := dest.String() + "-";
    SameFront(front, V4(client, m).String(), V4(client, n).String());
    SameFront(Text.Dotted(client) + ":", Text.Decimal(m), Text.Decimal(n));
    Text.DecimalInjective(m, n);
  }

  /**
   For every cap and every number of idle removals, some run exceeds the cap by exactly that number, with
   connections of any one client to any one destination.
   */
  lemma CapExceededBy(dest: UDPAddr, client: Text.IPv4, limit: int, d: nat) returns (steps: seq<Step>)
    requires limit > 0
    ensures Run(limit, steps).finished == d && |Run(limit, steps).pool.connections| == limit + d
    ensures OnlyKeys(Run(limit, steps), (port: nat) => Key(dest, V4(client, port)))
  {
    var keys := (port: nat) => Key(dest, V4(client, port));
    forall m, n | keys(m) == keys(n)
      ensures m == n
    {
      PortsDiffer(dest, client, m, n);
    }
    var m;
    steps, m := Filled(keys, limit, d, limit + d);
  }
}
