/**
 The session tables under concurrency. Storing a session is a load-or-store in the keyed table, then a plain
 store or a gauge update, then a store in the index; a rebuild first looks for a matching session and may
 only repair the index; the idle sweep looks, deletes and then updates the gauge; a clear collects keys,
 deletes them one by one and subtracts their number at the end. Every map operation and every gauge update
 is one step, so is tracking a data packet in its communication pattern, and any number of handlers, sweeps
 and clears interleave.
 */
module SessionGauge {
  import Collections
  import P = Patterns

  type Index = nat
  type Key = (Index, Index)
  type Client = string
  type Dest = string

  datatype Session = Session(sender: Index, dest: Dest)

  /** Where a handler, the sweep or a clear is. */
  datatype Task =
    | Resting
    | Storing(key: Key, session: Session)    // a handshake was answered, or a rebuild found no match
    | Inserted(session: Session)             // the key was new; the gauge is still to be raised
    | Found(key: Key, session: Session)      // the key was there; the session is still to be stored
    | Indexing(session: Session)             // the session is in the table and still to be indexed
    | Rebuilding(key: Key, dest: Dest)       // a pattern allows a rebuild; the table is still to be searched
    | Matched(index: Index, dest: Dest)      // it has a matching session; the index is still to be searched
    | Repairing(index: Index, dest: Dest)    // the index lacked it and is still to be stored
    | Condemned(key: Key)                    // the sweep saw an idle session and is about to delete it
    | Deleted                                // the sweep deleted it; the gauge is still to be lowered
    | Collecting(keys: seq<Key>)             // a clear has seen these keys
    | Clearing(left: seq<Key>, total: nat)   // a clear still has these keys to delete, out of so many

  /** What was seen so far: answered handshakes, and data towards and from a destination. */
  datatype Seen = Seen(answered: set<(Index, Dest)>, toward: set<(Client, Dest, Index)>, back: set<(Dest, Client, Index)>)

  /** `lost` counts the steps at which the table and the gauge part ways. */
  datatype State = State(
    table: map<Key, Session>,
    index: map<Index, Dest>,
    patterns: map<(Client, Dest), P.Pattern>,
    gauge: int,
    tasks: seq<Task>,
    seen: Seen,
    lost: nat)

  datatype Step =
    | Begin
    | Answered(n: nat, key: Key, session: Session)
    | TrackData(n: nat, client: Client, dest: Dest, d: P.Data)
    | SweepPattern(n: nat, client: Client, dest: Dest, now: P.Time)
    | LoadOrStore(n: nat)
    | RaiseGauge(n: nat)
    | StoreAgain(n: nat)
    | StoreIndex(n: nat)
    | SearchTable(n: nat)
    | SearchIndex(n: nat)
    | SeeIdle(n: nat, key: Key)
    | DeleteIdle(n: nat)
    | LowerGauge(n: nat)
    | Collect(n: nat, key: Key)
    | EndCollect(n: nat)
    | DeleteNext(n: nat)
    | EndClear(n: nat)

  const Start := State(map[], map[], map[], 0, [], Seen({}, {}, {}), 0)

  function Put(s: State, n: nat, t: Task): State
    requires n < |s.tasks|
  {
    s.(tasks := s.tasks[n := t])
  }

  function Drop(s: State, key: Key): State {
    s.(table := s.table - {key}, lost := s.lost + if key in s.table then 0 else 1)
  }

  function Noted(seen: Seen, client: Client, dest: Dest, d: P.Data): Seen {
    if d.fromClient then seen.(toward := seen.toward + {(client, dest, d.index)})
    else seen.(back := seen.back + {(dest, client, d.index)})
  }

  function Lookup(s: State, client: Client, dest: Dest): Collections.Option<P.Pattern> {
    if (client, dest) in s.patterns then Collections.Some(s.patterns[(client, dest)]) else Collections.None
  }

  /** The state once a data packet is noted and its pattern updated. */
  function Tracked(s: State, client: Client, dest: Dest, d: P.Data): State {
    s.(seen := Noted(s.seen, client, dest, d), patterns := s.patterns[(client, dest) := P.Tracked(Lookup(s, client, dest), d)])
  }

  /** A handler sees a handshake response or a data packet, or the sweep of patterns looks at one. */
  function AfterPacket(s: State, step: Step): (r: State)
    requires !step.Begin? && step.n < |s.tasks|
    ensures |r.tasks| == |s.tasks|
  {
    var n, task := step.n, s.tasks[step.n];
    match step
    case Answered(_, key, session) =>
      if task != Resting then s
      else Put(s.(seen := s.seen.(answered := s.seen.answered + {(session.sender, session.dest)})), n, Storing(key, session))
    case TrackData(_, client, dest, d) =>
      if task != Resting then s
      else
        var t := Tracked(s, client, dest, d);
        var p := t.patterns[(client, dest)];
        if (client, dest) in s.patterns && P.Rebuildable(p) then Put(t, n, Rebuilding((p.destIndex, p.clientIndex), dest)) else t
    case SweepPattern(_, client, dest, now) =>
      if (client, dest) in s.patterns && P.IdlePattern(s.patterns[(client, dest)], now)
      then s.(patterns := s.patterns - {(client, dest)}) else s
    case _ => s
  }

  /** A step of a handler that stores a session. */
  function AfterStore(s: State, step: Step): (r: State)
    requires !step.Begin? && step.n < |s.tasks|
    ensures |r.tasks| == |s.tasks|
  {
    var n, task := step.n, s.tasks[step.n];
    match step
    case LoadOrStore(_) =>
      if !task.Storing? then s
      else if task.key in s.table then Put(s, n, Found(task.key, task.session))
      else Put(s.(table := s.table[task.key := task.session]), n, Inserted(task.session))
    case RaiseGauge(_) =>
      if !task.Inserted? then s else Put(s.(gauge := s.gauge + 1), n, Indexing(task.session))
    case StoreAgain(_) =>
      if !task.Found? then s
      else Put(s.(table := s.table[task.key := task.session], lost := s.lost + if task.key in s.table then 0 else 1),
               n, Indexing(task.session))
    case StoreIndex(_) =>
      if task.Indexing? then Put(s.(index := s.index[task.session.sender := task.session.dest]), n, Resting)
      else if task.Repairing? then Put(s.(index := s.index[task.index := task.dest]), n, Resting)
      else s
    case _ => s
  }

  /** A step of a handler that rebuilds a session from a pattern, before it stores anything. */
  function AfterRebuild(s: State, step: Step): (r: State)
    requires !step.Begin? && step.n < |s.tasks|
    ensures |r.tasks| == |s.tasks|
  {
    var n, task := step.n, s.tasks[step.n];
    match step
    case SearchTable(_) =>
      if !task.Rebuilding? then s
      else if task.key in s.table && s.table[task.key].dest == task.dest then Put(s, n, Matched(task.key.1, task.dest))
      else Put(s, n, Storing(task.key, Session(task.key.1, task.dest)))
    case SearchIndex(_) =>
      if !task.Matched? then s
      else if task.index in s.index then Put(s, n, Resting)
      else Put(s, n, Repairing(task.index, task.dest))
    case _ => s
  }

  /** A step of the sweep. */
  function AfterSweep(s: State, step: Step): (r: State)
    requires !step.Begin? && step.n < |s.tasks|
    ensures |r.tasks| == |s.tasks|
  {
    var n, task := step.n, s.tasks[step.n];
    match step
    case SeeIdle(_, key) =>
      if task != Resting || key !in s.table then s else Put(s, n, Condemned(key))
    case DeleteIdle(_) =>
      if !task.Condemned? then s else Put(Drop(s, task.key), n, Deleted)
    case LowerGauge(_) =>
      if task != Deleted then s else Put(s.(gauge := s.gauge - 1), n, Resting)
    case _ => s
  }

  /** A step of a clear. */
  function AfterClear(s: State, step: Step): (r: State)
    requires !step.Begin? && step.n < |s.tasks|
    ensures |r.tasks| == |s.tasks|
  {
    var n, task := step.n, s.tasks[step.n];
    match step
    case Collect(_, key) =>
      if key !in s.table then s
      else if task == Resting then Put(s, n, Collecting([key]))
      else if task.Collecting? && key !in task.keys then Put(s, n, Collecting(task.keys + [key]))
      else s
    case EndCollect(_) =>
      if !task.Collecting? then s else Put(s, n, Clearing(task.keys, |task.keys|))
    case DeleteNext(_) =>
      if !task.Clearing? || task.left == [] then s
      else Put(Drop(s, task.left[0]), n, Clearing(task.left[1..], task.total))
    case EndClear(_) =>
      if !task.Clearing? || task.left != [] then s
      else Put(s.(gauge := s.gauge - task.total), n, Resting)
    case _ => s
  }

  function Apply(s: State, step: Step): State {
    if step.Begin? then s.(tasks := s.tasks + [Resting])
    else if step.n >= |s.tasks| then s
    else if step.SeeIdle? || step.DeleteIdle? || step.LowerGauge? then AfterSweep(s, step)
    else if step.Collect? || step.EndCollect? || step.DeleteNext? || step.EndClear? then AfterClear(s, step)
    else if step.SearchTable? || step.SearchIndex? then AfterRebuild(s, step)
    else if step.Answered? || step.TrackData? || step.SweepPattern? then AfterPacket(s, step)
    else AfterStore(s, step)
  }

  function Run(steps: seq<Step>): State {
    if steps == [] then Start else Apply(Run(steps[..|steps| - 1]), steps[|steps| - 1])
  }

  // ---------- The gauge ----------

  /** What a task still has to subtract from the gauge; an insertion still has to add one. */
  function Owed(t: Task): int {
    match t
    case Inserted(_) => -1
    case Deleted => 1
    case Clearing(left, total) => total - |left|
    case _ => 0
  }

  function TotalOwed(ts: seq<Task>): int {
    if ts == [] then 0 else TotalOwed(ts[..|ts| - 1]) + Owed(ts[|ts| - 1])
  }

  lemma {:induction false} OwedPut(ts: seq<Task>, n: nat, t: Task)
    requires n < |ts|
    ensures TotalOwed(ts[n := t]) == TotalOwed(ts) - Owed(ts[n]) + Owed(t)
  {
    var last := |ts| - 1;
    if n < last {
      assert ts[n := t][..last] == ts[..last][n := t];
      OwedPut(ts[..last], n, t);
    } else {
      assert ts[n := t][..last] == ts[..last];
    }
  }

  /** The gauge is the number of keys, less the losses, plus what is still owed. */
  predicate Balanced(s: State) {
    s.gauge == |s.table| - s.lost + TotalOwed(s.tasks)
  }

  lemma DropCosts(s: State, key: Key)
    ensures |Drop(s, key).table| - Drop(s, key).lost == |s.table| - s.lost - 1
  {
    if key in s.table {
      Collections.DropSize(s.table, {key});
    } else {
      assert s.table - {key} == s.table;
    }
  }

  lemma StoreBalanced(s: State, step: Step)
    requires Balanced(s) && !step.Begin? && step.n < |s.tasks|
    ensures Balanced(AfterStore(s, step))
  {
    var task := s.tasks[step.n];
    OwedPut(s.tasks, step.n, AfterStore(s, step).tasks[step.n]);
    if (step.LoadOrStore? && task.Storing?) || (step.StoreAgain? && task.Found?) {
      Collections.PutSize(s.table, task.key, task.session);
    }
  }

  lemma PacketBalanced(s: State, step: Step)
    requires Balanced(s) && !step.Begin? && step.n < |s.tasks|
    ensures Balanced(AfterPacket(s, step))
  {
    OwedPut(s.tasks, step.n, AfterPacket(s, step).tasks[step.n]);
  }

  lemma RebuildBalanced(s: State, step: Step)
    requires Balanced(s) && !step.Begin? && step.n < |s.tasks|
    ensures Balanced(AfterRebuild(s, step))
  {
    OwedPut(s.tasks, step.n, AfterRebuild(s, step).tasks[step.n]);
  }

  lemma SweepBalanced(s: State, step: Step)
    requires Balanced(s) && !step.Begin? && step.n < |s.tasks|
    ensures Balanced(AfterSweep(s, step))
  {
    OwedPut(s.tasks, step.n, AfterSweep(s, step).tasks[step.n]);
    if step.DeleteIdle? && s.tasks[step.n].Condemned? { DropCosts(s, s.tasks[step.n].key); }
  }

  lemma ClearBalanced(s: State, step: Step)
    requires Balanced(s) && !step.Begin? && step.n < |s.tasks|
    ensures Balanced(AfterClear(s, step))
  {
    if step.DeleteNext? {
      DeleteNextBalanced(s, step.n);
    } else {
      OwedPut(s.tasks, step.n, AfterClear(s, step).tasks[step.n]);
    }
  }

  lemma DeleteNextBalanced(s: State, n: nat)
    requires Balanced(s) && n < |s.tasks|
    ensures Balanced(AfterClear(s, DeleteNext(n)))
  {
    var task := s.tasks[n];
    if task.Clearing? && task.left != [] {
      DropCosts(s, task.left[0]);
      OwedPut(s.tasks, n, Clearing(task.left[1..], task.total));
    }
  }

  lemma StepBalanced(s: State, step: Step)
    requires Balanced(s)
    ensures Balanced(Apply(s, step))
  {
    if step.Begin? {
      assert (s.tasks + [Resting])[..|s.tasks|] == s.tasks;
    } else if step.n < |s.tasks| {
      PacketBalanced(s, step);
      StoreBalanced(s, step);
      RebuildBalanced(s, step);
      SweepBalanced(s, step);
      ClearBalanced(s, step);
    }
  }

  /** The law holds over every interleaving. */
  lemma {:induction false} EveryRunBalanced(steps: seq<Step>)
    ensures Balanced(Run(steps))
  {
    if steps != [] {
      EveryRunBalanced(steps[..|steps| - 1]);
      StepBalanced(Run(steps[..|steps| - 1]), steps[|steps| - 1]);
    }
  }

  ghost predicate AllResting(ts: seq<Task>) {
    forall i | 0 <= i < |ts| :: ts[i] == Resting
  }

  lemma {:induction false} RestingOwesNothing(ts: seq<Task>)
    requires AllResting(ts)
    ensures TotalOwed(ts) == 0
  {
    if ts != [] {
      RestingOwesNothing(ts[..|ts| - 1]);
    }
  }

  /**
   When all tasks rest, the gauge equals the number of sessions exactly if no store hit a key that had been
   deleted since it was looked up and no delete hit a key that was already gone; otherwise it stays too low
   by their number.
   */
  lemma GaugeExactIff(steps: seq<Step>)
    requires AllResting(Run(steps).tasks)
    ensures Run(steps).gauge == |Run(steps).table| - Run(steps).lost
    ensures Run(steps).gauge == |Run(steps).table| <==> Run(steps).lost == 0
  {
    EveryRunBalanced(steps);
    RestingOwesNothing(Run(steps).tasks);
  }

  // ---------- The index ----------

  /** The task has put a session with this sender index into the table and not yet into the index. */
  predicate Publishing(t: Task, i: Index) {
    (t.Inserted? || t.Indexing?) && t.session.sender == i
  }

  ghost predicate BeingPublished(ts: seq<Task>, i: Index) {
    exists n :: 0 <= n < |ts| && Publishing(ts[n], i)
  }

  /** Every session in the table is indexed, or the task that stored it is between its two operations. */
  ghost predicate Findable(s: State) {
    forall key | key in s.table :: s.table[key].sender in s.index || BeingPublished(s.tasks, s.table[key].sender)
  }

  lemma OwnPublished(s: State, step: Step, i: Index)
    requires !step.Begin? && step.n < |s.tasks| && Publishing(s.tasks[step.n], i)
    ensures i in AfterStore(s, step).index || Publishing(AfterStore(s, step).tasks[step.n], i)
    ensures AfterRebuild(s, step).tasks == s.tasks
  {
  }

  lemma StillPublished(s: State, step: Step, n: nat, i: Index)
    requires n < |s.tasks| && Publishing(s.tasks[n], i)
    ensures n < |Apply(s, step).tasks| && (i in Apply(s, step).index || Publishing(Apply(s, step).tasks[n], i))
  {
    TasksStay(s, step);
    if step.Begin? || step.n != n {
      OtherTask(s, step, n);
    } else {
      OwnPublished(s, step, i);
      BusyObliged(s, step, i);
    }
  }

  /** A step that changes what a key holds belongs to a task that is to index it. */
  lemma NewlyStored(s: State, step: Step, key: Key)
    requires key in Apply(s, step).table && !(key in s.table && s.table[key] == Apply(s, step).table[key])
    ensures BeingPublished(Apply(s, step).tasks, Apply(s, step).table[key].sender)
  {
    assert Publishing(Apply(s, step).tasks[step.n], Apply(s, step).table[key].sender);
  }

  lemma StepFindable(s: State, step: Step)
    requires Findable(s)
    ensures Findable(Apply(s, step))
  {
    var t := Apply(s, step);
    forall key | key in t.table
      ensures t.table[key].sender in t.index || BeingPublished(t.tasks, t.table[key].sender)
    {
      if key in s.table && s.table[key] == t.table[key] {
        StaysFindable(s, step, s.table[key].sender);
      } else {
        NewlyStored(s, step, key);
      }
    }
  }

  lemma StaysFindable(s: State, step: Step, i: Index)
    requires i in s.index || BeingPublished(s.tasks, i)
    ensures i in Apply(s, step).index || BeingPublished(Apply(s, step).tasks, i)
  {
    IndexedIff(s, step, i);
    if n: nat :| n < |s.tasks| && Publishing(s.tasks[n], i) {
      StillPublished(s, step, n, i);
      TasksStay(s, step);
    }
  }

  lemma TasksStay(s: State, step: Step)
    ensures |s.tasks| <= |Apply(s, step).tasks|
  {
  }

  lemma {:induction false} EveryRunFindable(steps: seq<Step>)
    ensures Findable(Run(steps))
  {
    if steps != [] {
      EveryRunFindable(steps[..|steps| - 1]);
      StepFindable(Run(steps[..|steps| - 1]), steps[|steps| - 1]);
    }
  }

  /** A data packet with this index, looked up now, is flooded to all destinations. */
  predicate Floods(s: State, i: Index) {
    i !in s.index
  }

  /** The step stores index `i`. */
  predicate Publishes(s: State, step: Step, i: Index) {
    && step.StoreIndex? && step.n < |s.tasks|
    && var task := s.tasks[step.n];
       (task.Indexing? && task.session.sender == i) || (task.Repairing? && task.index == i)
  }

  /** Some step of the run stored index `i`. */
  predicate EverPublished(steps: seq<Step>, i: Index) {
    steps != [] &&
    var n := |steps| - 1;
    EverPublished(steps[..n], i) || Publishes(Run(steps[..n]), steps[n], i)
  }

  lemma IndexedIff(s: State, step: Step, i: Index)
    ensures i in Apply(s, step).index <==> i in s.index || Publishes(s, step, i)
  {
  }

  /**
   Over every interleaving, data is flooded exactly as long as no store of its index has been completed;
   neither sweeps nor clears bring that time back.
   */
  lemma {:induction false} FloodedIff(steps: seq<Step>, i: Index)
    ensures Floods(Run(steps), i) <==> !EverPublished(steps, i)
  {
    if steps != [] {
      var m := |steps| - 1;
      FloodedIff(steps[..m], i);
      IndexedIff(Run(steps[..m]), steps[m], i);
    }
  }

  /**
   Over every interleaving, data for a session that is in the table is flooded only while a task that stored
   this index in the table has not yet stored it in the index.
   */
  lemma FloodedOnlyWhilePublishing(steps: seq<Step>, key: Key)
    requires key in Run(steps).table && Floods(Run(steps), Run(steps).table[key].sender)
    ensures BeingPublished(Run(steps).tasks, Run(steps).table[key].sender)
  {
    EveryRunFindable(steps);
  }

  // ---------- Progress ----------

  /** The task is going to store index `i`, or to find it stored. */
  predicate Obliged(t: Task, i: Index) {
    || ((t.Storing? || t.Inserted? || t.Found? || t.Indexing?) && t.session.sender == i)
    || (t.Rebuilding? && t.key.1 == i)
    || ((t.Matched? || t.Repairing?) && t.index == i)
  }

  lemma StoreObliged(s: State, step: Step, i: Index)
    requires !step.Begin? && step.n < |s.tasks| && Obliged(s.tasks[step.n], i)
    ensures i in AfterStore(s, step).index || Obliged(AfterStore(s, step).tasks[step.n], i)
  {
  }

  lemma RebuildObliged(s: State, step: Step, i: Index)
    requires !step.Begin? && step.n < |s.tasks| && Obliged(s.tasks[step.n], i)
    ensures i in AfterRebuild(s, step).index || Obliged(AfterRebuild(s, step).tasks[step.n], i)
  {
  }

  /** Packets, sweeps and clears concern other tasks. */
  lemma BusyObliged(s: State, step: Step, i: Index)
    requires !step.Begin? && step.n < |s.tasks| && Obliged(s.tasks[step.n], i)
    ensures AfterPacket(s, step).tasks == AfterSweep(s, step).tasks == AfterClear(s, step).tasks == s.tasks
  {
  }

  lemma OtherTask(s: State, step: Step, n: nat)
    requires n < |s.tasks| && (step.Begin? || step.n != n)
    ensures n < |Apply(s, step).tasks| && Apply(s, step).tasks[n] == s.tasks[n]
  {
  }

  /** Index `i` is stored, or task `n` is obliged to store it. */
  predicate StoredOrObliged(s: State, n: nat, i: Index) {
    n < |s.tasks| && (i in s.index || Obliged(s.tasks[n], i))
  }

  lemma StillObliged(s: State, step: Step, n: nat, i: Index)
    requires StoredOrObliged(s, n, i)
    ensures StoredOrObliged(Apply(s, step), n, i)
  {
    TasksStay(s, step);
    IndexedIff(s, step, i);
    if i !in s.index {
      if step.Begin? || step.n != n {
        OtherTask(s, step, n);
      } else {
        StoreObliged(s, step, i);
        RebuildObliged(s, step, i);
        BusyObliged(s, step, i);
      }
    }
  }

  /** Whatever the others do, the task stays obliged until the index is stored, and it stays stored. */
  lemma {:induction false} ObligedUntilStored(steps: seq<Step>, more: seq<Step>, n: nat, i: Index)
    requires StoredOrObliged(Run(steps), n, i)
    ensures StoredOrObliged(Run(steps + more), n, i)
  {
    if more == [] {
      assert steps + more == steps;
    } else {
      var m := |more| - 1;
      assert (steps + more)[..|steps| + m] == steps + more[..m];
      ObligedUntilStored(steps, more[..m], n, i);
      StillObliged(Run(steps + more[..m]), more[m], n, i);
    }
  }

  /** The step makes task `n` obliged to store index `i`: a handshake is answered, or a pattern allows a rebuild. */
  predicate Obliges(s: State, step: Step, n: nat, i: Index) {
    && (step.Answered? || step.TrackData?) && step.n == n < |s.tasks| && s.tasks[n] == Resting
    && (step.Answered? ==> step.session.sender == i)
    && (step.TrackData? ==>
          && (step.client, step.dest) in s.patterns
          && var p := P.Tracked(Collections.Some(s.patterns[(step.client, step.dest)]), step.d);
             P.Rebuildable(p) && p.clientIndex == i)
  }

  /**
   Over every interleaving: once a handshake has been answered or a pattern has allowed a rebuild, then when its
   handler has come to rest the index is stored, and data with it is not flooded.
   */
  lemma ObligationMet(steps: seq<Step>, step: Step, more: seq<Step>, n: nat, i: Index)
    requires Obliges(Run(steps), step, n, i)
    requires n < |Run(steps + [step] + more).tasks| && Run(steps + [step] + more).tasks[n] == Resting
    ensures !Floods(Run(steps + [step] + more), i)
  {
    assert (steps + [step])[..|steps|] == steps;
    assert Obliged(Run(steps + [step]).tasks[n], i);
    ObligedUntilStored(steps + [step], more, n, i);
  }

  // ---------- Provenance ----------

  /** Data with this index went towards `dest` for some client to which `dest` also sent data. */
  ghost predicate SpokeBothWays(seen: Seen, i: Index, dest: Dest) {
    exists client, j :: (client, dest, i) in seen.toward && (dest, client, j) in seen.back
  }

  ghost predicate Entitled(seen: Seen, i: Index, dest: Dest) {
    (i, dest) in seen.answered || SpokeBothWays(seen, i, dest)
  }

  /** A pattern's indices were seen on the wire. */
  predicate PatternSeen(seen: Seen, client: Client, dest: Dest, p: P.Pattern) {
    && (p.clientIndex != 0 ==> (client, dest, p.clientIndex) in seen.toward)
    && (p.destIndex != 0 ==> (dest, client, p.destIndex) in seen.back)
  }

  /** What a task is going to store in a table or in the index is entitled. */
  ghost predicate TaskEntitled(t: Task, seen: Seen) {
    && (t.Storing? || t.Inserted? || t.Found? || t.Indexing? ==> Entitled(seen, t.session.sender, t.session.dest))
    && (t.Rebuilding? ==> Entitled(seen, t.key.1, t.dest))
    && (t.Matched? || t.Repairing? ==> Entitled(seen, t.index, t.dest))
  }

  ghost predicate TasksEntitled(ts: seq<Task>, seen: Seen) {
    forall n | 0 <= n < |ts| :: TaskEntitled(ts[n], seen)
  }

  ghost predicate IndexEntitled(index: map<Index, Dest>, seen: Seen) {
    forall i | i in index :: Entitled(seen, i, index[i])
  }

  ghost predicate TableEntitled(table: map<Key, Session>, seen: Seen) {
    forall key | key in table :: Entitled(seen, table[key].sender, table[key].dest)
  }

  ghost predicate PatternsSeen(s: State) {
    forall client, dest | (client, dest) in s.patterns :: PatternSeen(s.seen, client, dest, s.patterns[(client, dest)])
  }

  ghost predicate Provenance(s: State) {
    && TasksEntitled(s.tasks, s.seen) && IndexEntitled(s.index, s.seen) && TableEntitled(s.table, s.seen)
    && PatternsSeen(s)
  }

  predicate SeenGrows(seen: Seen, more: Seen) {
    seen.answered <= more.answered && seen.toward <= more.toward && seen.back <= more.back
  }

  lemma EntitledLater(seen: Seen, more: Seen, i: Index, dest: Dest)
    requires SeenGrows(seen, more) && Entitled(seen, i, dest)
    ensures Entitled(more, i, dest)
  {
    if client, j :| (client, dest, i) in seen.toward && (dest, client, j) in seen.back {
      assert (client, dest, i) in more.toward && (dest, client, j) in more.back;
    }
  }

  lemma TaskLater(t: Task, seen: Seen, more: Seen)
    requires SeenGrows(seen, more) && TaskEntitled(t, seen)
    ensures TaskEntitled(t, more)
  {
    if t.Storing? || t.Inserted? || t.Found? || t.Indexing? { EntitledLater(seen, more, t.session.sender, t.session.dest); }
    if t.Rebuilding? { EntitledLater(seen, more, t.key.1, t.dest); }
    if t.Matched? || t.Repairing? { EntitledLater(seen, more, t.index, t.dest); }
  }

  lemma ProvenanceLater(s: State, more: Seen)
    requires SeenGrows(s.seen, more) && Provenance(s)
    ensures Provenance(s.(seen := more))
  {
    forall n | 0 <= n < |s.tasks| ensures TaskEntitled(s.tasks[n], more) { TaskLater(s.tasks[n], s.seen, more); }
    forall i | i in s.index ensures Entitled(more, i, s.index[i]) { EntitledLater(s.seen, more, i, s.index[i]); }
    forall key | key in s.table
      ensures Entitled(more, s.table[key].sender, s.table[key].dest)
    {
      EntitledLater(s.seen, more, s.table[key].sender, s.table[key].dest);
    }
  }

  /** Replacing one task by an entitled one. */
  lemma PutEntitled(s: State, n: nat, t: Task)
    requires Provenance(s) && n < |s.tasks| && TaskEntitled(t, s.seen)
    ensures Provenance(Put(s, n, t))
  {
  }

  /** Tracking a packet keeps every pattern's indices among those seen. */
  lemma TrackedSeen(s: State, client: Client, dest: Dest, d: P.Data)
    requires Provenance(s)
    ensures Provenance(Tracked(s, client, dest, d))
  {
    var more := Noted(s.seen, client, dest, d);
    ProvenanceLater(s, more);
    assert PatternSeen(more, client, dest, P.Tracked(Lookup(s, client, dest), d));
  }

  lemma AnsweredEntitled(s: State, n: nat, key: Key, session: Session)
    requires Provenance(s) && n < |s.tasks|
    ensures Provenance(AfterPacket(s, Answered(n, key, session)))
  {
    if s.tasks[n] == Resting {
      var more := s.seen.(answered := s.seen.answered + {(session.sender, session.dest)});
      ProvenanceLater(s, more);
      PutEntitled(s.(seen := more), n, Storing(key, session));
    }
  }

  /** A pattern that allows a rebuild has seen data in both directions. */
  lemma TrackEntitled(s: State, n: nat, client: Client, dest: Dest, d: P.Data)
    requires Provenance(s) && n < |s.tasks|
    ensures Provenance(AfterPacket(s, TrackData(n, client, dest, d)))
  {
    if s.tasks[n] == Resting {
      var t := Tracked(s, client, dest, d);
      var p := t.patterns[(client, dest)];
      TrackedSeen(s, client, dest, d);
      if P.Rebuildable(p) {
        assert PatternSeen(t.seen, client, dest, p);
        assert SpokeBothWays(t.seen, p.clientIndex, dest);
        PutEntitled(t, n, Rebuilding((p.destIndex, p.clientIndex), dest));
      }
    }
  }

  lemma StoreEntitled(s: State, step: Step)
    requires Provenance(s) && !step.Begin? && step.n < |s.tasks|
    ensures Provenance(AfterStore(s, step))
  {
    assert TaskEntitled(s.tasks[step.n], s.seen);
  }

  lemma RebuildEntitled(s: State, step: Step)
    requires Provenance(s) && !step.Begin? && step.n < |s.tasks|
    ensures Provenance(AfterRebuild(s, step))
  {
    assert TaskEntitled(s.tasks[step.n], s.seen);
  }

  lemma SweepEntitled(s: State, step: Step)
    requires Provenance(s) && !step.Begin? && step.n < |s.tasks|
    ensures Provenance(AfterSweep(s, step))
  {
  }

  lemma ClearEntitled(s: State, step: Step)
    requires Provenance(s) && !step.Begin? && step.n < |s.tasks|
    ensures Provenance(AfterClear(s, step))
  {
  }

  lemma StepEntitled(s: State, step: Step)
    requires Provenance(s)
    ensures Provenance(Apply(s, step))
  {
    if !step.Begin? && step.n < |s.tasks| {
      StoreEntitled(s, step);
      RebuildEntitled(s, step);
      SweepEntitled(s, step);
      ClearEntitled(s, step);
      match step
      case Answered(n, key, session) => AnsweredEntitled(s, n, key, session);
      case TrackData(n, client, dest, d) => TrackEntitled(s, n, client, dest, d);
      case _ =>
    }
  }

  /**
   Over every interleaving, an index leads only to a destination that answered a handshake with it, or towards
   which data with it went for a client to which the destination also sent data; whichever handler's store
   came last.
   */
  lemma {:induction false} EveryRunEntitled(steps: seq<Step>)
    ensures Provenance(Run(steps))
  {
    if steps != [] {
      EveryRunEntitled(steps[..|steps| - 1]);
      StepEntitled(Run(steps[..|steps| - 1]), steps[|steps| - 1]);
    }
  }

  // ---------- Two runs ----------

  ghost predicate Reachable(s: State) {
    exists steps :: Run(steps) == s
  }

  lemma Then(s: State, step: Step, t: State)
    requires Reachable(s) && Apply(s, step) == t
    ensures Reachable(t)
  {
    var steps :| Run(steps) == s;
    assert (steps + [step])[..|steps|] == steps;
    assert Run(steps + [step]) == t;
  }

  /** A state with two tasks, for one session and its key. */
  function Two(key: Key, session: Session, stored: bool, indexed: bool, gauge: int, first: Task, second: Task, lost: nat): State {
    State(if stored then map[key := session] else map[], if indexed then map[session.sender := session.dest] else map[],
          map[], gauge, [first, second], Seen({(session.sender, session.dest)}, {}, {}), lost)
  }

  lemma Twice()
    ensures Reachable(State(map[], map[], map[], 0, [Resting, Resting], Seen({}, {}, {}), 0))
  {
    var one := State(map[], map[], map[], 0, [Resting], Seen({}, {}, {}), 0);
    assert Run([]) == Start;
    Then(Start, Begin, one);
    Then(one, Begin, State(map[], map[], map[], 0, [Resting, Resting], Seen({}, {}, {}), 0));
  }

  lemma ThenAnswered(key: Key, session: Session)
    ensures Reachable(Two(key, session, false, false, 0, Storing(key, session), Resting, 0))
  {
    Twice();
    Then(State(map[], map[], map[], 0, [Resting, Resting], Seen({}, {}, {}), 0), Answered(0, key, session),
         Two(key, session, false, false, 0, Storing(key, session), Resting, 0));
  }

  lemma ThenInserted(key: Key, session: Session)
    ensures Reachable(Two(key, session, true, false, 0, Inserted(session), Resting, 0))
  {
    ThenAnswered(key, session);
    Then(Two(key, session, false, false, 0, Storing(key, session), Resting, 0), LoadOrStore(0),
         Two(key, session, true, false, 0, Inserted(session), Resting, 0));
  }

  /** Between its two stores a session is in the table and its data is flooded. */
  lemma FloodedWhileStored(key: Key, session: Session) returns (steps: seq<Step>)
    ensures var s := Run(steps); key in s.table && s.table[key] == session && Floods(s, session.sender)
  {
    ThenInserted(key, session);
    steps :| Run(steps) == Two(key, session, true, false, 0, Inserted(session), Resting, 0);
  }

  lemma ThenRaised(key: Key, session: Session)
    ensures Reachable(Two(key, session, true, false, 1, Indexing(session), Resting, 0))
  {
    ThenInserted(key, session);
    Then(Two(key, session, true, false, 0, Inserted(session), Resting, 0), RaiseGauge(0),
         Two(key, session, true, false, 1, Indexing(session), Resting, 0));
  }

  lemma ThenIndexed(key: Key, session: Session)
    ensures Reachable(Two(key, session, true, true, 1, Resting, Resting, 0))
  {
    ThenRaised(key, session);
    Then(Two(key, session, true, false, 1, Indexing(session), Resting, 0), StoreIndex(0),
         Two(key, session, true, true, 1, Resting, Resting, 0));
  }

  lemma ThenAnsweredAgain(key: Key, session: Session)
    ensures Reachable(Two(key, session, true, true, 1, Storing(key, session), Resting, 0))
  {
    ThenIndexed(key, session);
    var s := Two(key, session, true, true, 1, Resting, Resting, 0);
    assert s.seen.answered + {(session.sender, session.dest)} == s.seen.answered;
    Then(s, Answered(0, key, session), Two(key, session, true, true, 1, Storing(key, session), Resting, 0));
  }

  lemma ThenFound(key: Key, session: Session)
    ensures Reachable(Two(key, session, true, true, 1, Found(key, session), Resting, 0))
  {
    ThenAnsweredAgain(key, session);
    Then(Two(key, session, true, true, 1, Storing(key, session), Resting, 0), LoadOrStore(0),
         Two(key, session, true, true, 1, Found(key, session), Resting, 0));
  }

  lemma ThenCondemned(key: Key, session: Session)
    ensures Reachable(Two(key, session, true, true, 1, Found(key, session), Condemned(key), 0))
  {
    ThenFound(key, session);
    Then(Two(key, session, true, true, 1, Found(key, session), Resting, 0), SeeIdle(1, key),
         Two(key, session, true, true, 1, Found(key, session), Condemned(key), 0));
  }

  lemma ThenDeleted(key: Key, session: Session)
    ensures Reachable(Two(key, session, false, true, 1, Found(key, session), Deleted, 0))
  {
    ThenCondemned(key, session);
    assert map[key := session] - {key} == map[];
    Then(Two(key, session, true, true, 1, Found(key, session), Condemned(key), 0), DeleteIdle(1),
         Two(key, session, false, true, 1, Found(key, session), Deleted, 0));
  }

  lemma ThenLowered(key: Key, session: Session)
    ensures Reachable(Two(key, session, false, true, 0, Found(key, session), Resting, 0))
  {
    ThenDeleted(key, session);
    Then(Two(key, session, false, true, 1, Found(key, session), Deleted, 0), LowerGauge(1),
         Two(key, session, false, true, 0, Found(key, session), Resting, 0));
  }

  lemma ThenStoredAgain(key: Key, session: Session)
    ensures Reachable(Two(key, session, true, true, 0, Indexing(session), Resting, 1))
  {
    ThenLowered(key, session);
    Then(Two(key, session, false, true, 0, Found(key, session), Resting, 0), StoreAgain(0),
         Two(key, session, true, true, 0, Indexing(session), Resting, 1));
  }

  /** A session deleted between a handler's two table operations is stored again without being counted. */
  lemma SweepDuringStore(key: Key, session: Session) returns (steps: seq<Step>)
    ensures AllResting(Run(steps).tasks) && Run(steps).table == map[key := session] && Run(steps).gauge == 0
  {
    ThenStoredAgain(key, session);
    var s := Two(key, session, true, true, 0, Indexing(session), Resting, 1);
    assert s.index[session.sender := session.dest] == s.index;
    Then(s, StoreIndex(0), Two(key, session, true, true, 0, Resting, Resting, 1));
    steps :| Run(steps) == Two(key, session, true, true, 0, Resting, Resting, 1);
  }
}
