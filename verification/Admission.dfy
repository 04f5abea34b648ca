/**
 Admission to the SNI proxy: one accept loop and any number of exiting handlers share a global counter,
 a map from source address to counter object, and the counter objects. Every atomic operation and every
 map operation is one step, and steps of the accept loop and of the handlers interleave freely.
 */
module Admission {

  type Source = string
  type CounterId = nat
  type HandlerId = nat

  /** The configured caps; both loaders accept only positive numbers. */
  datatype Limits = Limits(total: int, perSource: int) {
    predicate Valid() {
      total > 0 && perSource > 0
    }
  }

  /** Where the accept loop is, between two connections or inside one. */
  datatype AcceptAt =
    | Listening
    | Passed(source: Source)                       // the global cap let it through
    | Loaded(source: Source, counter: CounterId)   // the per-source counter was loaded or stored
    | Cleared(source: Source, counter: CounterId)  // the per-source cap let it through
    | Counted(source: Source, counter: CounterId)  // the per-source counter was incremented
  {
    /** The counter the loop has in hand and has not yet incremented. */
    predicate Holds(c: CounterId) {
      (Loaded? || Cleared?) && counter == c
    }
  }

  /** A handler serves, then gives back its global slot, then its per-source slot, then may delete the entry. */
  datatype HandlerAt = Serving | Releasing | Deleting

  datatype Handler = Handler(source: Source, counter: CounterId, at: HandlerAt)

  /** A counter object, with the address it was created for. */
  datatype Counter = Counter(source: Source, value: int)

  datatype State = State(
    active: int,
    perSource: map<Source, CounterId>,
    counters: map<CounterId, Counter>,
    handlers: map<HandlerId, Handler>,
    accept: AcceptAt)

  datatype Step =
    | Accept(source: Source)
    | LoadOrStore(created: CounterId)
    | CheckCounter
    | AddCounter
    | Spawn(id: HandlerId)
    | Release(h: HandlerId)
    | DropCounter(h: HandlerId)
    | CompareAndDelete(h: HandlerId)

  const Start := State(0, map[], map[], map[], Listening)

  /** One step; a step that is not possible in `s` leaves it as it is. */
  function Apply(l: Limits, s: State, step: Step): State {
    match step
    case Accept(source) =>
      if s.accept != Listening || s.active >= l.total then s
      else s.(accept := Passed(source))
    case LoadOrStore(created) =>
      if !s.accept.Passed? then s
      else if s.accept.source in s.perSource then
        s.(accept := Loaded(s.accept.source, s.perSource[s.accept.source]))
      else if created in s.counters then s
      else s.(perSource := s.perSource[s.accept.source := created],
              counters := s.counters[created := Counter(s.accept.source, 0)],
              accept := Loaded(s.accept.source, created))
    case CheckCounter =>
      if !s.accept.Loaded? || s.accept.counter !in s.counters then s
      else if s.counters[s.accept.counter].value >= l.perSource then s.(accept := Listening)
      else s.(accept := Cleared(s.accept.source, s.accept.counter))
    case AddCounter =>
      if !s.accept.Cleared? || s.accept.counter !in s.counters then s
      else s.(counters := Bump(s.counters, s.accept.counter, 1),
              accept := Counted(s.accept.source, s.accept.counter))
    case Spawn(id) =>
      if !s.accept.Counted? || id in s.handlers then s
      else s.(active := s.active + 1,
              handlers := s.handlers[id := Handler(s.accept.source, s.accept.counter, Serving)],
              accept := Listening)
    case Release(h) =>
      if h !in s.handlers || s.handlers[h].at != Serving then s
      else s.(active := s.active - 1, handlers := s.handlers[h := s.handlers[h].(at := Releasing)])
    case DropCounter(h) =>
      if h !in s.handlers || s.handlers[h].at != Releasing || s.handlers[h].counter !in s.counters then s
      else
        var c := s.handlers[h].counter;
        s.(counters := Bump(s.counters, c, -1),
           handlers := if s.counters[c].value - 1 == 0 then s.handlers[h := s.handlers[h].(at := Deleting)]
                       else s.handlers - {h})
    case CompareAndDelete(h) =>
      if h !in s.handlers || s.handlers[h].at != Deleting then s
      else
        var Handler(source, c, _) := s.handlers[h];
        s.(perSource := if source in s.perSource && s.perSource[source] == c then s.perSource - {source} else s.perSource,
           handlers := s.handlers - {h})
  }

  function Bump(counters: map<CounterId, Counter>, c: CounterId, delta: int): map<CounterId, Counter>
    requires c in counters
  {
    counters[c := counters[c].(value := counters[c].value + delta)]
  }

  /** The state after any interleaving. */
  function Run(l: Limits, steps: seq<Step>): State {
    if steps == [] then Start else Apply(l, Run(l, steps[..|steps| - 1]), steps[|steps| - 1])
  }

  // ---------- What every reachable state satisfies ----------

  /** The handlers whose connection is still counted globally. */
  function ServingSet(handlers: map<HandlerId, Handler>): set<HandlerId> {
    set h | h in handlers && handlers[h].at == Serving
  }

  /** The handlers that still hold a slot of counter `c`. */
  function HoldersOf(handlers: map<HandlerId, Handler>, c: CounterId): set<HandlerId> {
    set h | h in handlers && handlers[h].counter == c && handlers[h].at != Deleting
  }

  predicate References(s: State) {
    && (forall a | a in s.perSource :: s.perSource[a] in s.counters && s.counters[s.perSource[a]].source == a)
    && (forall h | h in s.handlers ::
          s.handlers[h].counter in s.counters && s.counters[s.handlers[h].counter].source == s.handlers[h].source)
    && (s.accept.Loaded? || s.accept.Cleared? || s.accept.Counted? ==>
          s.accept.counter in s.counters && s.counters[s.accept.counter].source == s.accept.source)
  }

  /** The global counter is the number of serving handlers and stays within its cap. */
  ghost predicate Global(l: Limits, s: State) {
    && s.active == |ServingSet(s.handlers)| <= l.total
    && (s.accept != Listening ==> s.active < l.total)
  }

  /** A counter is the number of its holders, with the one the accept loop is about to spawn. */
  ghost predicate CounterExact(s: State, c: CounterId)
    requires c in s.counters
  {
    s.counters[c].value == |HoldersOf(s.handlers, c)| + if s.accept.Counted? && s.accept.counter == c then 1 else 0
  }

  ghost predicate CounterOk(l: Limits, s: State, c: CounterId)
    requires c in s.counters
  {
    && CounterExact(s, c)
    && s.counters[c].value <= l.perSource
    && (s.accept.Cleared? && s.accept.counter == c ==> s.counters[c].value < l.perSource)
  }

  ghost predicate PerSource(l: Limits, s: State) {
    forall c | c in s.counters :: CounterOk(l, s, c)
  }

  /** Somebody is going to delete the entry for `a`, or to use it. */
  ghost predicate Pending(s: State, a: Source)
    requires a in s.perSource
  {
    || s.accept.Holds(s.perSource[a])
    || exists h :: h in s.handlers && s.handlers[h] == Handler(a, s.perSource[a], Deleting)
  }

  ghost predicate ZeroesPending(s: State)
    requires References(s)
  {
    forall a | a in s.perSource && s.counters[s.perSource[a]].value == 0 :: Pending(s, a)
  }

  ghost predicate Inv(l: Limits, s: State) {
    References(s) && Global(l, s) && PerSource(l, s) && ZeroesPending(s)
  }

  // ---------- Every step keeps the invariant ----------

  lemma KeepsReferences(l: Limits, s: State, step: Step)
    requires References(s)
    ensures References(Apply(l, s, step))
  {
  }

  /** Adding a serving handler. */
  lemma AddedServing(m: map<HandlerId, Handler>, id: HandlerId, h: Handler)
    requires id !in m && h.at == Serving
    ensures |ServingSet(m[id := h])| == |ServingSet(m)| + 1
  {
    assert ServingSet(m[id := h]) == ServingSet(m) + {id};
  }

  lemma AddedHolder(m: map<HandlerId, Handler>, id: HandlerId, h: Handler)
    requires id !in m && h.at == Serving
    ensures |HoldersOf(m[id := h], h.counter)| == |HoldersOf(m, h.counter)| + 1
  {
    assert HoldersOf(m[id := h], h.counter) == HoldersOf(m, h.counter) + {id};
  }

  lemma AddedElsewhere(m: map<HandlerId, Handler>, id: HandlerId, h: Handler, c: CounterId)
    requires id !in m && h.counter != c
    ensures HoldersOf(m[id := h], c) == HoldersOf(m, c)
  {
  }

  /** A serving handler gives back its global slot. */
  lemma Released(m: map<HandlerId, Handler>, id: HandlerId, c: CounterId)
    requires id in m && m[id].at == Serving
    ensures |ServingSet(m[id := m[id].(at := Releasing)])| == |ServingSet(m)| - 1
    ensures |HoldersOf(m[id := m[id].(at := Releasing)], c)| == |HoldersOf(m, c)|
  {
    assert ServingSet(m) == ServingSet(m[id := m[id].(at := Releasing)]) + {id};
    assert HoldersOf(m[id := m[id].(at := Releasing)], c) == HoldersOf(m, c);
  }

  /** A releasing handler gives back its per-source slot and leaves. */
  lemma DroppedLast(m: map<HandlerId, Handler>, id: HandlerId, c: CounterId)
    requires id in m && m[id].at == Releasing
    ensures ServingSet(m - {id}) == ServingSet(m)
    ensures |HoldersOf(m - {id}, c)| == |HoldersOf(m, c)| - if m[id].counter == c then 1 else 0
  {
    if m[id].counter == c {
      assert HoldersOf(m, c) == HoldersOf(m - {id}, c) + {id};
    } else {
      assert HoldersOf(m, c) == HoldersOf(m - {id}, c);
    }
  }

  /** A releasing handler gives back the last per-source slot and goes on to delete the entry. */
  lemma DroppedToZero(m: map<HandlerId, Handler>, id: HandlerId, c: CounterId)
    requires id in m && m[id].at == Releasing
    ensures ServingSet(m[id := m[id].(at := Deleting)]) == ServingSet(m)
    ensures |HoldersOf(m[id := m[id].(at := Deleting)], c)| == |HoldersOf(m, c)| - if m[id].counter == c then 1 else 0
  {
    var m' := m[id := m[id].(at := Deleting)];
    if m[id].counter == c {
      assert HoldersOf(m, c) == HoldersOf(m', c) + {id};
    } else {
      assert HoldersOf(m, c) == HoldersOf(m', c);
    }
  }

  /** A deleting handler leaves. */
  lemma Left(m: map<HandlerId, Handler>, id: HandlerId, c: CounterId)
    requires id in m && m[id].at == Deleting
    ensures ServingSet(m - {id}) == ServingSet(m) && HoldersOf(m - {id}, c) == HoldersOf(m, c)
  {
  }

  /** The handler-set facts a step needs, for one counter. */
  lemma HandlerFacts(l: Limits, s: State, step: Step, c: CounterId)
    ensures var t := Apply(l, s, step);
            && t.active - s.active == |ServingSet(t.handlers)| - |ServingSet(s.handlers)|
            && (c in s.counters && c in t.counters ==>
                  t.counters[c].value - s.counters[c].value ==
                  |HoldersOf(t.handlers, c)| - |HoldersOf(s.handlers, c)|
                  + (if t.accept.Counted? && t.accept.counter == c then 1 else 0)
                  - (if s.accept.Counted? && s.accept.counter == c then 1 else 0))
            && (c !in s.counters && c in t.counters ==>
                  t.counters[c].value == 0 && t.handlers == s.handlers && t.accept.Loaded?)
  {
    var t := Apply(l, s, step);
    match step
    case Spawn(id) =>
      if t != s {
        AddedServing(s.handlers, id, t.handlers[id]);
        AddedHolder(s.handlers, id, t.handlers[id]);
        if t.handlers[id].counter != c { AddedElsewhere(s.handlers, id, t.handlers[id], c); }
      }
    case Release(h) => if t != s { Released(s.handlers, h, c); }
    case DropCounter(h) => if t != s { DroppedLast(s.handlers, h, c); DroppedToZero(s.handlers, h, c); }
    case CompareAndDelete(h) => if t != s { Left(s.handlers, h, c); }
    case _ =>
  }

  lemma KeepsGlobal(l: Limits, s: State, step: Step)
    requires Global(l, s)
    ensures Global(l, Apply(l, s, step))
  {
    HandlerFacts(l, s, step, 0);
  }

  lemma NoHolders(s: State, c: CounterId)
    requires References(s) && c !in s.counters
    ensures HoldersOf(s.handlers, c) == {}
  {
  }

  lemma KeepsCounter(l: Limits, s: State, step: Step, c: CounterId)
    requires References(s) && PerSource(l, s) && l.Valid() && c in Apply(l, s, step).counters
    ensures CounterOk(l, Apply(l, s, step), c)
  {
    HandlerFacts(l, s, step, c);
    if c in s.counters { assert CounterOk(l, s, c); } else { NoHolders(s, c); }
  }

  lemma KeepsPerSource(l: Limits, s: State, step: Step)
    requires References(s) && PerSource(l, s) && l.Valid()
    ensures PerSource(l, Apply(l, s, step))
  {
    forall c | c in Apply(l, s, step).counters
      ensures CounterOk(l, Apply(l, s, step), c)
    {
      KeepsCounter(l, s, step, c);
    }
  }

  lemma KeepsZeroesPending(l: Limits, s: State, step: Step)
    requires Inv(l, s) && l.Valid()
    ensures References(Apply(l, s, step)) && ZeroesPending(Apply(l, s, step))
  {
    KeepsReferences(l, s, step);
    var t := Apply(l, s, step);
    forall a | a in t.perSource && t.counters[t.perSource[a]].value == 0
      ensures Pending(t, a)
    {
      if a in s.perSource && s.counters[s.perSource[a]].value == 0 {
        StaysPending(l, s, step, a);
      } else {
        assert a in s.perSource ==> CounterOk(l, s, s.perSource[a]);
        BecomesPending(l, s, step, a);
      }
    }
  }

  /** An entry whose counter becomes zero is pending: its creator has it in hand, or its last holder deletes it. */
  lemma BecomesPending(l: Limits, s: State, step: Step, a: Source)
    requires References(s) && (a in s.perSource ==> s.counters[s.perSource[a]].value > 0)
    requires a in Apply(l, s, step).perSource && Apply(l, s, step).perSource[a] in Apply(l, s, step).counters
    requires Apply(l, s, step).counters[Apply(l, s, step).perSource[a]].value == 0
    ensures Pending(Apply(l, s, step), a)
  {
    var t := Apply(l, s, step);
    if step.DropCounter? {
      assert t.handlers[step.h] == Handler(a, t.perSource[a], Deleting);
    }
  }

  /** A zero entry that stays zero and stays mapped keeps whoever is about to delete or take it. */
  lemma StaysPending(l: Limits, s: State, step: Step, a: Source)
    requires References(s) && a in s.perSource && Pending(s, a) && l.Valid()
    requires s.counters[s.perSource[a]].value == 0
    requires a in Apply(l, s, step).perSource && Apply(l, s, step).perSource[a] in Apply(l, s, step).counters
    requires Apply(l, s, step).counters[Apply(l, s, step).perSource[a]].value == 0
    ensures Pending(Apply(l, s, step), a)
  {
    var t := Apply(l, s, step);
    if h :| h in s.handlers && s.handlers[h] == Handler(a, s.perSource[a], Deleting) {
      assert h in t.handlers && t.handlers[h] == s.handlers[h];
    }
  }

  /**
   In every interleaving: the global counter equals the number of serving handlers and respects its cap;
   every per-source counter equals the number of handlers holding it and respects its cap; and every
   entry whose counter is zero is about to be deleted or taken.
   */
  lemma {:induction false} EveryRunSafe(l: Limits, steps: seq<Step>)
    requires l.Valid()
    ensures Inv(l, Run(l, steps))
  {
    if steps == [] {
      assert ServingSet(Start.handlers) == {};
    } else {
      var before, step := Run(l, steps[..|steps| - 1]), steps[|steps| - 1];
      EveryRunSafe(l, steps[..|steps| - 1]);
      KeepsReferences(l, before, step);
      KeepsGlobal(l, before, step);
      KeepsPerSource(l, before, step);
      KeepsZeroesPending(l, before, step);
    }
  }

  /** Once every handler is gone and the accept loop is idle, nothing is left behind. */
  lemma DrainedIsEmpty(l: Limits, steps: seq<Step>)
    requires l.Valid()
    ensures Run(l, steps).handlers == map[] && Run(l, steps).accept == Listening ==>
              Run(l, steps).active == 0 && Run(l, steps).perSource == map[]
  {
    EveryRunSafe(l, steps);
    var s := Run(l, steps);
    if s.handlers == map[] && s.accept == Listening {
      assert ServingSet(s.handlers) == {};
      forall c | c in s.counters
        ensures s.counters[c].value == 0
      {
        assert CounterExact(s, c) && HoldersOf(s.handlers, c) == {};
      }
      assert forall a | a in s.perSource :: Pending(s, a);
    }
  }

  // ---------- The cap per source address ----------

  /** The connections of one source that have not given back their slot. */
  function LiveOf(s: State, a: Source): set<HandlerId> {
    set h | h in s.handlers && s.handlers[h].source == a && s.handlers[h].at != Deleting
  }

  /** The step unmaps `a`'s counter while it has holders or the accept loop is about to increment it. */
  predicate Detaches(s: State, step: Step, a: Source) {
    && step.CompareAndDelete? && step.h in s.handlers && s.handlers[step.h].at == Deleting
    && s.handlers[step.h].source == a
    && var c := s.handlers[step.h].counter;
       a in s.perSource && s.perSource[a] == c && c in s.counters && (s.counters[c].value != 0 || s.accept.Holds(c))
  }

  /** The counters of `a` that a run has detached. */
  function Detached(l: Limits, steps: seq<Step>, a: Source): set<CounterId> {
    if steps == [] then {}
    else
      var n := |steps| - 1;
      var s := Run(l, steps[..n]);
      Detached(l, steps[..n], a) + if Detaches(s, steps[n], a) then {s.handlers[steps[n].h].counter} else {}
  }

  /** How many steps of a run detach a counter of `a`. */
  function Detachments(l: Limits, steps: seq<Step>, a: Source): nat {
    if steps == [] then 0
    else
      var n := |steps| - 1;
      Detachments(l, steps[..n], a) + if Detaches(Run(l, steps[..n]), steps[n], a) then 1 else 0
  }

  lemma {:induction false} DetachedSize(l: Limits, steps: seq<Step>, a: Source)
    ensures |Detached(l, steps, a)| <= Detachments(l, steps, a)
  {
    if steps != [] {
      DetachedSize(l, steps[..|steps| - 1], a);
    }
  }

  /** Every counter that a connection of `a` uses is the mapped one or in `out`. */
  ghost predicate Attached(s: State, a: Source, out: set<CounterId>) {
    && (forall h | h in s.handlers && s.handlers[h].source == a && s.handlers[h].at != Deleting ::
          Known(s, a, out, s.handlers[h].counter))
    && ((s.accept.Loaded? || s.accept.Cleared? || s.accept.Counted?) && s.accept.source == a ==>
          Known(s, a, out, s.accept.counter))
  }

  predicate Known(s: State, a: Source, out: set<CounterId>, c: CounterId) {
    c in out || (a in s.perSource && s.perSource[a] == c)
  }

  lemma KeepsAttached(l: Limits, s: State, step: Step, a: Source, out: set<CounterId>)
    requires Attached(s, a, out) && !step.CompareAndDelete?
    ensures Attached(Apply(l, s, step), a, out)
  {
  }

  lemma DeleteKeepsAttached(l: Limits, s: State, step: Step, a: Source, out: set<CounterId>, out': set<CounterId>)
    requires References(s) && PerSource(l, s) && Attached(s, a, out) && step.CompareAndDelete?
    requires out <= out' && (Detaches(s, step, a) ==> s.handlers[step.h].counter in out')
    ensures Attached(Apply(l, s, step), a, out')
  {
    var t := Apply(l, s, step);
    if t.perSource != s.perSource {
      var c := s.handlers[step.h].counter;
      if s.counters[c].value == 0 { Unused(l, s, c); }
      forall h | h in t.handlers && t.handlers[h].source == a && t.handlers[h].at != Deleting
        ensures Known(t, a, out', t.handlers[h].counter)
      {
        assert h in s.handlers && Known(s, a, out, s.handlers[h].counter);
      }
    }
  }

  /** Nobody holds a counter that is zero. */
  lemma Unused(l: Limits, s: State, c: CounterId)
    requires PerSource(l, s) && c in s.counters && s.counters[c].value == 0
    ensures forall h | h in s.handlers && s.handlers[h].at != Deleting :: s.handlers[h].counter != c
    ensures !(s.accept.Counted? && s.accept.counter == c)
  {
    assert CounterOk(l, s, c);
    forall h | h in s.handlers && s.handlers[h].at != Deleting
      ensures s.handlers[h].counter != c
    {
      assert h !in HoldersOf(s.handlers, c);
    }
  }

  lemma {:induction false} RunAttached(l: Limits, steps: seq<Step>, a: Source)
    requires l.Valid()
    ensures Attached(Run(l, steps), a, Detached(l, steps, a))
  {
    if steps != [] {
      var n := |steps| - 1;
      RunAttached(l, steps[..n], a);
      EveryRunSafe(l, steps[..n]);
      if steps[n].CompareAndDelete? {
        DeleteKeepsAttached(l, Run(l, steps[..n]), steps[n], a, Detached(l, steps[..n], a), Detached(l, steps, a));
      } else {
        KeepsAttached(l, Run(l, steps[..n]), steps[n], a, Detached(l, steps[..n], a));
      }
    }
  }

  /** The handlers that hold a slot of one of these counters. */
  function HoldersOfAny(handlers: map<HandlerId, Handler>, cs: set<CounterId>): set<HandlerId> {
    set h | h in handlers && handlers[h].counter in cs && handlers[h].at != Deleting
  }

  lemma HoldersOfOneMore(m: map<HandlerId, Handler>, cs: set<CounterId>, c: CounterId)
    requires c in cs
    ensures |HoldersOfAny(m, cs)| == |HoldersOfAny(m, cs - {c})| + |HoldersOf(m, c)|
  {
    assert HoldersOfAny(m, cs) == HoldersOfAny(m, cs - {c}) + HoldersOf(m, c);
    assert HoldersOfAny(m, cs - {c}) !! HoldersOf(m, c);
  }

  lemma CounterCapped(l: Limits, s: State, c: CounterId)
    requires References(s) && PerSource(l, s) && l.Valid()
    ensures |HoldersOf(s.handlers, c)| <= l.perSource
  {
    if c in s.counters { assert CounterOk(l, s, c); } else { NoHolders(s, c); }
  }

  lemma Once(p: int, n: int)
    ensures p * (n + 1) == p * n + p
  {
  }

  /** So many counters have at most so many holders. */
  lemma {:induction false} FewHolders(l: Limits, s: State, cs: set<CounterId>)
    requires References(s) && PerSource(l, s) && l.Valid()
    ensures |HoldersOfAny(s.handlers, cs)| <= l.perSource * |cs|
    decreases |cs|
  {
    if cs == {} {
      assert HoldersOfAny(s.handlers, cs) == {};
    } else {
      var c :| c in cs;
      var rest := cs - {c};
      FewHolders(l, s, rest);
      CounterCapped(l, s, c);
      HoldersOfOneMore(s.handlers, cs, c);
      Once(l.perSource, |rest|);
    }
  }

  /**
   Over every run, the live connections of one source address number at most the cap, and the cap again for
   every delete that hit a counter in use. `CapExceededBy` shows that this is reached.
   */
  lemma CapPerSource(l: Limits, steps: seq<Step>, a: Source)
    requires l.Valid()
    ensures |LiveOf(Run(l, steps), a)| <= l.perSource * (1 + Detachments(l, steps, a))
  {
    RunAttached(l, steps, a);
    EveryRunSafe(l, steps);
    DetachedSize(l, steps, a);
    LiveBound(l, Run(l, steps), a, Detached(l, steps, a), Detachments(l, steps, a));
  }

  lemma LiveBound(l: Limits, s: State, a: Source, out: set<CounterId>, d: nat)
    requires References(s) && PerSource(l, s) && l.Valid() && Attached(s, a, out) && |out| <= d
    ensures |LiveOf(s, a)| <= l.perSource * (1 + d)
  {
    var cs := if a in s.perSource then out + {s.perSource[a]} else out;
    LiveWithin(s, a, out, cs);
    FewHolders(l, s, cs);
    Scaled(l.perSource, |cs|, 1 + d);
  }

  lemma LiveWithin(s: State, a: Source, out: set<CounterId>, cs: set<CounterId>)
    requires Attached(s, a, out) && out <= cs && (a in s.perSource ==> s.perSource[a] in cs)
    ensures |LiveOf(s, a)| <= |HoldersOfAny(s.handlers, cs)|
  {
    Within(LiveOf(s, a), HoldersOfAny(s.handlers, cs));
  }

  lemma Within(x: set<HandlerId>, y: set<HandlerId>)
    requires x <= y
    ensures |x| <= |y|
  {
    assert y == x + (y - x);
  }

  lemma Scaled(p: int, m: int, n: int)
    requires p > 0 && m <= n
    ensures p * m <= p * n
  {
    assert p * n == p * m + p * (n - m);
  }

  // ---------- The excess is reached ----------

  /** The five steps that admit one connection. */
  function Admit(a: Source, c: CounterId, h: HandlerId): seq<Step> {
    [Accept(a), LoadOrStore(c), CheckCounter, AddCounter, Spawn(h)]
  }

  lemma RunTwo(l: Limits, steps: seq<Step>, x: Step, y: Step)
    ensures Run(l, steps + [x, y]) == Apply(l, Apply(l, Run(l, steps), x), y)
  {
    assert (steps + [x, y])[..|steps| + 1] == steps + [x];
    assert (steps + [x])[..|steps|] == steps;
  }

  lemma RunFive(l: Limits, steps: seq<Step>, a: Source, c: CounterId, h: HandlerId)
    ensures Run(l, steps + Admit(a, c, h)) ==
            Apply(l, Apply(l, Apply(l, Apply(l, Apply(l, Run(l, steps), Accept(a)), LoadOrStore(c)), CheckCounter), AddCounter), Spawn(h))
  {
    RunTwo(l, steps, Accept(a), LoadOrStore(c));
    RunTwo(l, steps + [Accept(a), LoadOrStore(c)], CheckCounter, AddCounter);
    var four := steps + [Accept(a), LoadOrStore(c)] + [CheckCounter, AddCounter];
    assert (steps + Admit(a, c, h))[..|steps| + 4] == four;
  }

  /** Admitting a connection of a source that has no entry, or has one below the cap. */
  lemma Admits(l: Limits, steps: seq<Step>, a: Source, c: CounterId, h: HandlerId)
    requires var s := Run(l, steps);
             && l.Valid() && s.accept == Listening && s.active < l.total && h !in s.handlers
             && (a in s.perSource ==> s.perSource[a] == c && c in s.counters && s.counters[c].value < l.perSource)
             && (a !in s.perSource ==> c !in s.counters)
    ensures var s := Run(l, steps);
            Run(l, steps + Admit(a, c, h)) ==
            s.(active := s.active + 1, perSource := s.perSource[a := c],
               counters := if a in s.perSource then Bump(s.counters, c, 1) else s.counters[c := Counter(a, 1)],
               handlers := s.handlers[h := Handler(a, c, Serving)])
  {
    var s := Run(l, steps);
    RunFive(l, steps, a, c, h);
    assert a in s.perSource ==> s.perSource[a := c] == s.perSource;
    assert a !in s.perSource ==> Bump(s.counters[c := Counter(a, 0)], c, 1) == s.counters[c := Counter(a, 1)];
  }

  /** A step that deletes nothing detaches nothing. */
  lemma {:induction false} NoDetachment(l: Limits, steps: seq<Step>, more: seq<Step>, a: Source)
    requires forall n | 0 <= n < |more| :: !more[n].CompareAndDelete?
    ensures Detachments(l, steps + more, a) == Detachments(l, steps, a)
  {
    if more == [] {
      assert steps + more == steps;
    } else {
      var n := |more| - 1;
      assert (steps + more)[..|steps| + n] == steps + more[..n];
      NoDetachment(l, steps, more[..n], a);
    }
  }

  /**
   A run that has detached `d` counters of `a` and has `live` connections of it, which are all it serves.
   Handlers are numbered below `next`, and counters up to `c`, which is `a`'s if `a` has an entry.
   */
  ghost predicate Reaches(l: Limits, steps: seq<Step>, a: Source, c: CounterId, d: nat, live: nat, next: HandlerId) {
    var s := Run(l, steps);
    && s.accept == Listening && s.active == live == |LiveOf(s, a)| && Detachments(l, steps, a) == d
    && (forall h | h in s.handlers :: h < next)
    && (a in s.perSource ==> s.perSource[a] == c && c in s.counters)
    && (forall k | k in s.counters :: k < c || (k == c && a in s.perSource))
  }

  function CounterValue(s: State, c: CounterId): int {
    if c in s.counters then s.counters[c].value else 0
  }

  /** One more connection of `a`. */
  lemma Grows(l: Limits, steps: seq<Step>, a: Source, c: CounterId, d: nat, live: nat, next: HandlerId) returns (all: seq<Step>)
    requires l.Valid() && Reaches(l, steps, a, c, d, live, next)
    requires live < l.total && CounterValue(Run(l, steps), c) < l.perSource
    ensures all == steps + Admit(a, c, next)
    ensures Reaches(l, all, a, c, d, live + 1, next + 1) && a in Run(l, all).perSource
    ensures CounterValue(Run(l, all), c) == CounterValue(Run(l, steps), c) + 1
    ensures Run(l, all).handlers == Run(l, steps).handlers[next := Handler(a, c, Serving)]
  {
    all := steps + Admit(a, c, next);
    Admits(l, steps, a, c, next);
    NoDetachment(l, steps, Admit(a, c, next), a);
    assert LiveOf(Run(l, all), a) == LiveOf(Run(l, steps), a) + {next};
  }

  /** `n` more connections of `a`; handlers that were there stay as they are. */
  lemma {:induction false} Fills(l: Limits, steps: seq<Step>, a: Source, c: CounterId, d: nat, live: nat, next: HandlerId, n: nat)
    returns (all: seq<Step>)
    requires l.Valid() && Reaches(l, steps, a, c, d, live, next)
    requires live + n <= l.total && CounterValue(Run(l, steps), c) + n <= l.perSource
    ensures Reaches(l, all, a, c, d, live + n, next + n)
    ensures CounterValue(Run(l, all), c) == CounterValue(Run(l, steps), c) + n
    ensures a in Run(l, steps).perSource ==> a in Run(l, all).perSource
    ensures forall h | h in Run(l, steps).handlers :: h in Run(l, all).handlers && Run(l, all).handlers[h] == Run(l, steps).handlers[h]
    decreases n
  {
    all := steps;
    if n > 0 {
      all := Fills(l, steps, a, c, d, live, next, n - 1);
      all := Grows(l, all, a, c, d, live + n - 1, next + n - 1);
    }
  }

  /** A connection leaves, up to its pending delete, when it is the only one of its counter. */
  lemma Leaves(l: Limits, s: State, h: HandlerId, a: Source, c: CounterId)
    requires h in s.handlers && s.handlers[h] == Handler(a, c, Serving) && c in s.counters && s.counters[c].value == 1
    ensures Apply(l, Apply(l, s, Release(h)), DropCounter(h)) ==
            s.(active := s.active - 1, counters := Bump(s.counters, c, -1),
               handlers := s.handlers[h := Handler(a, c, Deleting)])
  {
    assert s.handlers[h := Handler(a, c, Releasing)][h := Handler(a, c, Deleting)] == s.handlers[h := Handler(a, c, Deleting)];
  }

  /** The first connection of a new counter comes and goes, up to its pending delete. */
  lemma Drops(l: Limits, steps: seq<Step>, a: Source, c: CounterId, d: nat, live: nat, next: HandlerId) returns (all: seq<Step>)
    requires l.Valid() && Reaches(l, steps, a, c, d, live, next) && a !in Run(l, steps).perSource && live < l.total
    ensures Reaches(l, all, a, c, d, live, next + 1) && a in Run(l, all).perSource && CounterValue(Run(l, all), c) == 0
    ensures next in Run(l, all).handlers && Run(l, all).handlers[next] == Handler(a, c, Deleting)
  {
    var one := Grows(l, steps, a, c, d, live, next);
    all := one + [Release(next), DropCounter(next)];
    RunTwo(l, one, Release(next), DropCounter(next));
    Leaves(l, Run(l, one), next, a, c);
    NoDetachment(l, one, [Release(next), DropCounter(next)], a);
    OneLessLive(Run(l, one), Run(l, all), a, next);
  }

  lemma OneLessLive(s: State, t: State, a: Source, h: HandlerId)
    requires h in s.handlers && s.handlers[h].source == a && s.handlers[h].at != Deleting
    requires t.handlers == s.handlers[h := s.handlers[h].(at := Deleting)]
    ensures |LiveOf(t, a)| == |LiveOf(s, a)| - 1
  {
    assert LiveOf(s, a) == LiveOf(t, a) + {h};
  }

  /** The pending delete detaches the counter that has been filled meanwhile. */
  lemma Unmaps(l: Limits, steps: seq<Step>, a: Source, c: CounterId, d: nat, live: nat, next: HandlerId, h: HandlerId)
    returns (all: seq<Step>)
    requires l.Valid() && Reaches(l, steps, a, c, d, live, next) && a in Run(l, steps).perSource
    requires h in Run(l, steps).handlers && Run(l, steps).handlers[h] == Handler(a, c, Deleting)
    requires CounterValue(Run(l, steps), c) > 0
    ensures Reaches(l, all, a, c + 1, d + 1, live, next) && a !in Run(l, all).perSource
  {
    all := steps + [CompareAndDelete(h)];
    assert all[..|steps|] == steps;
    assert LiveOf(Run(l, all), a) == LiveOf(Run(l, steps), a);
  }

  /** One detached counter more, filled to the cap. */
  lemma Detach(l: Limits, steps: seq<Step>, a: Source, c: CounterId, d: nat, live: nat, next: HandlerId) returns (all: seq<Step>)
    requires l.Valid() && Reaches(l, steps, a, c, d, live, next) && a !in Run(l, steps).perSource
    requires live + l.perSource <= l.total
    ensures Reaches(l, all, a, c + 1, d + 1, live + l.perSource, next + 1 + l.perSource) && a !in Run(l, all).perSource
  {
    all := Drops(l, steps, a, c, d, live, next);
    all := Fills(l, all, a, c, d, live, next + 1, l.perSource);
    all := Unmaps(l, all, a, c, d, live + l.perSource, next + 1 + l.perSource, next);
  }

  lemma {:induction false} DetachMany(l: Limits, a: Source, d: nat) returns (all: seq<Step>, next: HandlerId)
    requires l.Valid() && l.perSource * d <= l.total
    ensures Reaches(l, all, a, d, d, l.perSource * d, next) && a !in Run(l, all).perSource
  {
    if d == 0 {
      all, next := [], 0;
      assert LiveOf(Start, a) == {};
    } else {
      assert l.perSource * d == l.perSource * (d - 1) + l.perSource;
      all, next := DetachMany(l, a, d - 1);
      all := Detach(l, all, a, d - 1, d - 1, l.perSource * (d - 1), next);
      next := next + 1 + l.perSource;
    }
  }

  /**
   For every cap and every number of such deletes, some run reaches the bound: each time, new connections
   fill up a counter that had dropped to zero, and the old handler's delete then unmaps it.
   */
  lemma CapExceededBy(l: Limits, a: Source, d: nat) returns (steps: seq<Step>)
    requires l.Valid() && l.total >= l.perSource * (1 + d)
    ensures Detachments(l, steps, a) == d && |LiveOf(Run(l, steps), a)| == l.perSource * (1 + d)
  {
    var next;
    assert l.perSource * (1 + d) == l.perSource * d + l.perSource;
    steps, next := DetachMany(l, a, d);
    steps := Fills(l, steps, a, d, d, l.perSource * d, next, l.perSource);
  }
}
