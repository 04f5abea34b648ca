/**
 The pattern table over whole runs of the relay: for every client and destination, the record is the
 replay of the packets between the two and of the sweeps, so it has the life cycle of module Patterns,
 and a session is rebuilt from it only when that life cycle makes it due.
 */
module SessionPatterns {
  import opened Collections
  import P = Patterns
  import opened Sessions

  type Time = P.Time

  function Lookup(t: Tables, client: Addr, dest: Addr): Option<P.Pattern> {
    if (client, dest) in t.patterns then Some(t.patterns[(client, dest)]) else None
  }

  /** What an event means for one record. */
  function Relevant(e: Event, client: Addr, dest: Addr): seq<P.Event> {
    match e
    case Toward(c, d, i, at) => if c == client && d == dest then [P.Track(P.Data(i, true, at))] else []
    case Back(d, c, i, at) => if c == client && d == dest then [P.Track(P.Data(i, false, at))] else []
    case PatternsSwept(at) => [P.Sweep(at)]
    case _ => []
  }

  /** The events of a history that concern one record. */
  function Project(h: seq<Event>, client: Addr, dest: Addr): seq<P.Event> {
    if h == [] then [] else Project(h[..|h| - 1], client, dest) + Relevant(h[|h| - 1], client, dest)
  }

  ghost predicate Replays(t: Tables, h: seq<Event>) {
    forall client, dest :: Lookup(t, client, dest) == P.Run(Project(h, client, dest))
  }

  lemma ProjectOne(h: seq<Event>, e: Event, client: Addr, dest: Addr)
    ensures Project(h + [e], client, dest) == Project(h, client, dest) + Relevant(e, client, dest)
  {
    assert (h + [e])[..|h|] == h;
  }

  lemma RunOne(evs: seq<P.Event>, e: P.Event)
    ensures P.Run(evs + [e]) == P.After(P.Run(evs), e)
  {
    assert (evs + [e])[..|evs|] == evs;
  }

  /** Events about sends and handshakes concern no record. */
  lemma OtherEvent(t: Tables, h: seq<Event>, e: Event)
    requires Replays(t, h) && (e.Answered? || e.FastSend? || e.FloodSend? || e.HandshakeSend?)
    ensures Replays(t, h + [e])
  {
    forall client, dest
      ensures Lookup(t, client, dest) == P.Run(Project(h + [e], client, dest))
    {
      ProjectOne(h, e, client, dest);
      assert Project(h, client, dest) + [] == Project(h, client, dest);
    }
  }

  lemma {:induction false} RelayedReplays(t: Tables, h: seq<Event>, hops: seq<Hop>, client: Addr)
    requires Replays(t, h)
    ensures Replays(t, h + Relayed(hops, client))
  {
    if hops == [] {
      assert h + Relayed(hops, client) == h;
    } else {
      var n := |hops| - 1;
      var g := h + Relayed(hops[..n], client);
      RelayedReplays(t, h, hops[..n], client);
      if hops[n].Written? {
        OtherEvent(t, g, HandshakeSend(client, hops[n].dest));
        assert h + Relayed(hops, client) == g + [HandshakeSend(client, hops[n].dest)];
      } else {
        assert h + Relayed(hops, client) == g;
      }
    }
  }

  lemma TrackedLookup(t: Tables, client: Addr, dest: Addr, d: P.Data, c: Addr, x: Addr)
    requires Placed(t)
    ensures Lookup(TrackedData(t, client, dest, d), c, x) ==
            if c == client && x == dest then Some(P.Tracked(Lookup(t, client, dest), d)) else Lookup(t, c, x)
  {
  }

  /** The event that goes with a tracked packet. */
  function Noted(client: Addr, dest: Addr, d: P.Data): Event {
    if d.fromClient then Toward(client, dest, d.index, d.now) else Back(dest, client, d.index, d.now)
  }

  lemma NotedReplay(h: seq<Event>, client: Addr, dest: Addr, d: P.Data, c: Addr, x: Addr)
    ensures P.Run(Project(h + [Noted(client, dest, d)], c, x)) ==
            if c == client && x == dest then Some(P.Tracked(P.Run(Project(h, c, x)), d)) else P.Run(Project(h, c, x))
  {
    ProjectOne(h, Noted(client, dest, d), c, x);
    if c == client && x == dest {
      RunOne(Project(h, c, x), P.Track(d));
    } else {
      assert Project(h, c, x) + [] == Project(h, c, x);
    }
  }

  lemma TrackReplays(t: Tables, h: seq<Event>, client: Addr, dest: Addr, d: P.Data)
    requires Placed(t) && Replays(t, h)
    ensures Replays(TrackedData(t, client, dest, d), h + [Noted(client, dest, d)])
  {
    forall c, x
      ensures Lookup(TrackedData(t, client, dest, d), c, x) == P.Run(Project(h + [Noted(client, dest, d)], c, x))
    {
      assert Lookup(t, c, x) == P.Run(Project(h, c, x));
      TrackedLookup(t, client, dest, d, c, x);
      NotedReplay(h, client, dest, d, c, x);
    }
  }

  lemma SentReplays(s: State, client: Addr, dest: Addr, index: P.Index, written: bool, fast: bool, now: Time)
    requires Placed(s.tables) && Replays(s.tables, s.history)
    ensures var r := Sent(s, client, dest, index, written, fast, now); Replays(r.tables, r.history)
  {
    var h := s.history + [Toward(client, dest, index, now)];
    TrackReplays(s.tables, s.history, client, dest, P.Data(index, true, now));
    var t := TrackedData(s.tables, client, dest, P.Data(index, true, now));
    if written {
      OtherEvent(t, h, if fast then FastSend(client, dest, index) else FloodSend(client, dest, index));
    } else {
      assert h + [] == h;
    }
  }

  lemma {:induction false} FloodedReplays(s: State, hops: seq<Hop>, client: Addr, index: P.Index, now: Time)
    requires Placed(s.tables) && Replays(s.tables, s.history)
    ensures var r := Flooded(s, hops, client, index, now); Replays(r.tables, r.history)
  {
    if hops != [] {
      var hop, before := hops[|hops| - 1], Flooded(s, hops[..|hops| - 1], client, index, now);
      FloodedReplays(s, hops[..|hops| - 1], client, index, now);
      if hop.Unwritten? || hop.Written? {
        SentReplays(before, client, hop.dest, index, hop.Written?, false, now);
      }
    }
  }

  lemma ClientPacketReplays(s: State, input: Input)
    requires Placed(s.tables) && Replays(s.tables, s.history) && input.ClientPacket?
    ensures Replays(Apply(s, input).tables, Apply(s, input).history)
  {
    var t, message := s.tables, ExtractWireGuardIndices(input.packet);
    if message.Some? && input.mapped {
      match message.value
      case Initiation(_) => RelayedReplays(t, s.history, input.hops, input.client);
      case Response(receiver, sender) =>
        OtherEvent(t, s.history, Answered(input.client, sender));
        RelayedReplays(t, s.history + [Answered(input.client, sender)], input.hops, input.client);
        SamePatterns(t, Apply(s, input).tables, Apply(s, input).history);
      case Transport(index) =>
        if index !in t.byReceiverIndex {
          FloodedReplays(s, input.hops, input.client, index, input.now);
        } else {
          var u := s.(tables := Refreshed(t, t.byReceiverIndex[index], input.now));
          SamePatterns(t, u.tables, s.history);
          if input.connects {
            SentReplays(u, input.client, t.objects[t.byReceiverIndex[index]].dest, index, input.writes, true, input.now);
          }
        }
    }
  }

  lemma SamePatterns(t: Tables, u: Tables, h: seq<Event>)
    requires Replays(t, h) && u.patterns == t.patterns
    ensures Replays(u, h)
  {
    forall client, dest
      ensures Lookup(u, client, dest) == P.Run(Project(h, client, dest))
    {
      assert Lookup(u, client, dest) == Lookup(t, client, dest);
    }
  }

  lemma ReplyReplays(s: State, input: Input)
    requires Placed(s.tables) && Replays(s.tables, s.history) && input.Reply?
    ensures Replays(Apply(s, input).tables, Apply(s, input).history)
  {
    match ExtractWireGuardIndices(input.packet)
    case Some(Response(receiver, sender)) =>
      OtherEvent(s.tables, s.history, Answered(input.dest, sender));
      SamePatterns(s.tables, Apply(s, input).tables, Apply(s, input).history);
    case Some(Transport(index)) =>
      TrackReplays(s.tables, s.history, input.client, input.dest, P.Data(index, false, input.now));
    case _ =>
  }

  lemma SweepReplays(t: Tables, h: seq<Event>, now: Time)
    requires Replays(t, h)
    ensures Replays(SweptPatterns(t, now), h + [PatternsSwept(now)])
  {
    forall client, dest
      ensures Lookup(SweptPatterns(t, now), client, dest) == P.Run(Project(h + [PatternsSwept(now)], client, dest))
    {
      ProjectOne(h, PatternsSwept(now), client, dest);
      RunOne(Project(h, client, dest), P.Sweep(now));
      assert Lookup(t, client, dest) == P.Run(Project(h, client, dest));
    }
  }

  /** Over every run, every record is the replay of the history between its client and destination. */
  lemma {:induction false} EveryRunReplays(inputs: seq<Input>)
    ensures Replays(Run(inputs).tables, Run(inputs).history)
  {
    if inputs != [] {
      var s, input := Run(inputs[..|inputs| - 1]), inputs[|inputs| - 1];
      EveryRunReplays(inputs[..|inputs| - 1]);
      match input
      case ClientPacket(_, _, _, _, _, _, _) => ClientPacketReplays(s, input);
      case Reply(_, _, _, _) => ReplyReplays(s, input);
      case SweepPatterns(now) => SweepReplays(s.tables, s.history, now);
      case _ => SamePatterns(s.tables, Apply(s, input).tables, s.history);
    }
  }

  /** The life so far makes a rebuild due: both indices known, four packets, a gap under thirty seconds. */
  predicate Due(ds: seq<P.Data>) {
    && P.SeenNonZero(ds, true) && P.SeenNonZero(ds, false) && |ds| >= 4
    && P.Abs(P.LastIn(ds, true) - P.LastIn(ds, false)) < P.REBUILD_WINDOW
  }

  // ---------- Where sessions and index entries come from ----------

  /** The history up to `n` ends a life that makes a rebuild due, with these two indices. */
  ghost predicate DueAt(h: seq<Event>, n: nat, client: Addr, dest: Addr, receiver: P.Index, sender: P.Index) {
    && n <= |h|
    && var ds := P.Life(Project(h[..n], client, dest));
       Due(ds) && P.FirstNonZero(ds, true) == sender && P.FirstNonZero(ds, false) == receiver
  }

  ghost predicate WasDue(h: seq<Event>, dest: Addr, receiver: P.Index, sender: P.Index) {
    exists n: nat, client :: DueAt(h, n, client, dest, receiver, sender)
  }

  /** The session was stored for an answered handshake, or when its two indices' pattern was due. */
  ghost predicate Born(h: seq<Event>, s: Session) {
    Answered(s.dest, s.sender) in h || WasDue(h, s.dest, s.receiver, s.sender)
  }

  /** The destination answered a handshake with this index, or a pattern with it was due. */
  ghost predicate Entitled(h: seq<Event>, index: P.Index, dest: Addr) {
    Answered(dest, index) in h || exists receiver :: WasDue(h, dest, receiver, index)
  }

  ghost predicate Sound(t: Tables, h: seq<Event>) {
    && Placed(t)
    && (forall id | 0 <= id < |t.objects| :: Born(h, t.objects[id]))
    && (forall i | i in t.byReceiverIndex :: Entitled(h, i, t.objects[t.byReceiverIndex[i]].dest))
  }

  lemma WasDueLater(h: seq<Event>, more: seq<Event>, dest: Addr, receiver: P.Index, sender: P.Index)
    requires WasDue(h, dest, receiver, sender)
    ensures WasDue(h + more, dest, receiver, sender)
  {
    var n: nat, client :| DueAt(h, n, client, dest, receiver, sender);
    assert (h + more)[..n] == h[..n];
    assert DueAt(h + more, n, client, dest, receiver, sender);
  }

  lemma EntitledLater(h: seq<Event>, more: seq<Event>, index: P.Index, dest: Addr)
    requires Entitled(h, index, dest)
    ensures Entitled(h + more, index, dest)
  {
    if receiver :| WasDue(h, dest, receiver, index) {
      WasDueLater(h, more, dest, receiver, index);
    }
  }

  lemma SoundLater(t: Tables, h: seq<Event>, more: seq<Event>)
    requires Sound(t, h)
    ensures Sound(t, h + more)
  {
    forall id | 0 <= id < |t.objects|
      ensures Born(h + more, t.objects[id])
    {
      var s := t.objects[id];
      assert Born(h, s);
      if WasDue(h, s.dest, s.receiver, s.sender) { WasDueLater(h, more, s.dest, s.receiver, s.sender); }
    }
    forall i | i in t.byReceiverIndex
      ensures Entitled(h + more, i, t.objects[t.byReceiverIndex[i]].dest)
    {
      EntitledLater(h, more, i, t.objects[t.byReceiverIndex[i]].dest);
    }
  }

  lemma StoreSound(t: Tables, h: seq<Event>, key: (P.Index, P.Index), s: Session)
    requires Sound(t, h) && Born(h, s)
    ensures Sound(Stored(t, key, s), h)
  {
    assert Entitled(h, s.sender, s.dest);
  }

  lemma RebuildSound(t: Tables, h: seq<Event>, dest: Addr, p: P.Pattern, now: Time)
    requires Sound(t, h) && (P.Rebuildable(p) ==> WasDue(h, dest, p.destIndex, p.clientIndex))
    ensures Sound(Rebuilt(t, dest, p, now), h)
  {
    if P.Rebuildable(p) {
      var key := (p.destIndex, p.clientIndex);
      assert Entitled(h, p.clientIndex, dest);
      if key in t.wgSessions && t.objects[t.wgSessions[key]].dest == dest {
        RefreshSound(t, h, t.wgSessions[key], now);
      } else {
        StoreSound(t, h, key, Session(p.destIndex, p.clientIndex, dest, now));
      }
    }
  }

  lemma RefreshSound(t: Tables, h: seq<Event>, id: nat, now: Time)
    requires Sound(t, h) && id < |t.objects|
    ensures Sound(Refreshed(t, id, now), h)
  {
    assert Born(h, t.objects[id]);
  }

  // ---------- Clocks ----------

  predicate EndsBy(evs: seq<P.Event>, clock: Time) {
    P.Timely(evs) && forall i | 0 <= i < |evs| :: P.Clock(evs[i]) <= clock
  }

  /** The times in the history never decrease and none is after `clock`. */
  ghost predicate Timed(h: seq<Event>, clock: Time) {
    forall client, dest :: EndsBy(Project(h, client, dest), clock)
  }

  predicate HappensAt(e: Event, now: Time) {
    e.Toward? || e.Back? || e.PatternsSwept? ==> e.at == now
  }

  lemma EndsByOne(evs: seq<P.Event>, e: P.Event, clock: Time)
    requires EndsBy(evs, clock) && P.ZERO_TIME < clock <= P.Clock(e)
    ensures EndsBy(evs + [e], P.Clock(e))
  {
  }

  lemma TimedOne(h: seq<Event>, e: Event, clock: Time, now: Time)
    requires Timed(h, clock) && P.ZERO_TIME < clock <= now && HappensAt(e, now)
    ensures Timed(h + [e], now)
  {
    forall client, dest
      ensures EndsBy(Project(h + [e], client, dest), now)
    {
      var evs, r := Project(h, client, dest), Relevant(e, client, dest);
      ProjectOne(h, e, client, dest);
      assert EndsBy(evs, clock);
      if r == [] { assert evs + r == evs; } else { EndsByOne(evs, r[0], clock); assert r == [r[0]]; }
    }
  }

  /** The inputs' times never decrease and none is after `clock`. */
  predicate InOrder(inputs: seq<Input>, clock: Time) {
    clock > P.ZERO_TIME &&
    if inputs == [] then true
    else
      var input := inputs[|inputs| - 1];
      if input.ClearSessions? then InOrder(inputs[..|inputs| - 1], clock)
      else input.now <= clock && InOrder(inputs[..|inputs| - 1], input.now)
  }

  // ---------- Every step ----------

  /** Every send over the fast path was entitled by what came before its own packet. */
  ghost predicate SendsEntitled(h: seq<Event>) {
    forall n | 0 <= n < |h| && h[n].FastSend? :: n > 0 && Entitled(h[..n - 1], h[n].index, h[n].dest)
  }

  ghost predicate Well(s: State, clock: Time) {
    Sound(s.tables, s.history) && Replays(s.tables, s.history) && Timed(s.history, clock) && SendsEntitled(s.history)
  }

  lemma SendsOne(h: seq<Event>, e: Event)
    requires SendsEntitled(h) && (e.FastSend? ==> h != [] && Entitled(h[..|h| - 1], e.index, e.dest))
    ensures SendsEntitled(h + [e])
  {
    var g := h + [e];
    forall n | 0 <= n < |g| && g[n].FastSend?
      ensures n > 0 && Entitled(g[..n - 1], g[n].index, g[n].dest)
    {
      if n < |h| { assert h[n].FastSend?; }
      assert n > 0 && g[..n - 1] == h[..n - 1];
    }
  }

  /** An event that changes no table. */
  lemma NoteWell(s: State, e: Event, clock: Time, now: Time)
    requires Well(s, clock) && P.ZERO_TIME < clock <= now && (e.Answered? || e.FastSend? || e.FloodSend? || e.HandshakeSend?)
    requires e.FastSend? ==> s.history != [] && Entitled(s.history[..|s.history| - 1], e.index, e.dest)
    ensures Well(s.(history := s.history + [e]), now)
  {
    SoundLater(s.tables, s.history, [e]);
    OtherEvent(s.tables, s.history, e);
    TimedOne(s.history, e, clock, now);
    SendsOne(s.history, e);
  }

  lemma {:induction false} RelayedWell(s: State, hops: seq<Hop>, client: Addr, now: Time)
    requires Well(s, now) && now > P.ZERO_TIME
    ensures Well(s.(history := s.history + Relayed(hops, client)), now)
  {
    if hops == [] {
      assert s.history + Relayed(hops, client) == s.history;
    } else {
      var n := |hops| - 1;
      var g := s.history + Relayed(hops[..n], client);
      RelayedWell(s, hops[..n], client, now);
      if hops[n].Written? {
        NoteWell(s.(history := g), HandshakeSend(client, hops[n].dest), now, now);
        assert s.history + Relayed(hops, client) == g + [HandshakeSend(client, hops[n].dest)];
      } else {
        assert s.history + Relayed(hops, client) == g;
      }
    }
  }

  /** A record that allows a rebuild has a life that is due, with the record's indices. */
  lemma RecordDue(h: seq<Event>, client: Addr, dest: Addr, p: P.Pattern, clock: Time)
    requires Timed(h, clock) && P.Run(Project(h, client, dest)) == Some(p) && P.Rebuildable(p)
    ensures WasDue(h, dest, p.destIndex, p.clientIndex)
  {
    assert EndsBy(Project(h, client, dest), clock);
    P.RebuildableIff(Project(h, client, dest));
    P.RecordIsSummary(Project(h, client, dest));
    assert h[..|h|] == h;
    assert DueAt(h, |h|, client, dest, p.destIndex, p.clientIndex);
  }

  /** Tracking one packet, at any point of a run: a session is stored or an index made known only when due. */
  lemma TrackWell(s: State, client: Addr, dest: Addr, d: P.Data, clock: Time)
    requires Well(s, clock) && P.ZERO_TIME < clock <= d.now
    ensures Well(State(TrackedData(s.tables, client, dest, d), s.history + [Noted(client, dest, d)]), d.now)
  {
    var t, h := s.tables, s.history + [Noted(client, dest, d)];
    TrackReplays(t, s.history, client, dest, d);
    TimedOne(s.history, Noted(client, dest, d), clock, d.now);
    SoundLater(t, s.history, [Noted(client, dest, d)]);
    SendsOne(s.history, Noted(client, dest, d));
    var p := P.Tracked(Lookup(t, client, dest), d);
    assert Lookup(TrackedData(t, client, dest, d), client, dest) == Some(p) by { TrackedLookup(t, client, dest, d, client, dest); }
    assert P.Run(Project(h, client, dest)) == Some(p);
    if P.Rebuildable(p) { RecordDue(h, client, dest, p, d.now); }
    RebuildSound(t.(patterns := t.patterns[(client, dest) := p]), h, dest, p, d.now);
  }

  lemma SentWell(s: State, client: Addr, dest: Addr, index: P.Index, written: bool, fast: bool, now: Time)
    requires Well(s, now) && now > P.ZERO_TIME && (fast ==> Entitled(s.history, index, dest))
    ensures Well(Sent(s, client, dest, index, written, fast, now), now)
  {
    var d := P.Data(index, true, now);
    TrackWell(s, client, dest, d, now);
    var u := State(TrackedData(s.tables, client, dest, d), s.history + [Toward(client, dest, index, now)]);
    if written {
      assert u.history[..|u.history| - 1] == s.history;
      NoteWell(u, if fast then FastSend(client, dest, index) else FloodSend(client, dest, index), now, now);
    } else {
      assert u.history + [] == u.history;
    }
  }

  lemma {:induction false} FloodedWell(s: State, hops: seq<Hop>, client: Addr, index: P.Index, now: Time)
    requires Well(s, now) && now > P.ZERO_TIME
    ensures Well(Flooded(s, hops, client, index, now), now)
  {
    if hops != [] {
      var hop, before := hops[|hops| - 1], Flooded(s, hops[..|hops| - 1], client, index, now);
      FloodedWell(s, hops[..|hops| - 1], client, index, now);
      if hop.Unwritten? || hop.Written? {
        SentWell(before, client, hop.dest, index, hop.Written?, false, now);
      }
    }
  }

  lemma AnsweredWell(s: State, from: Addr, key: (P.Index, P.Index), receiver: P.Index, sender: P.Index, now: Time)
    requires Well(s, now) && now > P.ZERO_TIME
    ensures Well(State(Stored(s.tables, key, Session(receiver, sender, from, now)), s.history + [Answered(from, sender)]), now)
  {
    var h := s.history + [Answered(from, sender)];
    NoteWell(s, Answered(from, sender), now, now);
    StoreSound(s.tables, h, key, Session(receiver, sender, from, now));
    SamePatterns(s.tables, Stored(s.tables, key, Session(receiver, sender, from, now)), h);
  }

  lemma ClientPacketWell(s: State, input: Input)
    requires input.ClientPacket? && Well(s, input.now) && input.now > P.ZERO_TIME
    ensures Well(Apply(s, input), input.now)
  {
    var t, message := s.tables, ExtractWireGuardIndices(input.packet);
    if message.Some? && input.mapped {
      match message.value
      case Initiation(_) => RelayedWell(s, input.hops, input.client, input.now);
      case Response(receiver, sender) =>
        AnsweredWell(s, input.client, (receiver, sender), receiver, sender, input.now);
        var stored := Stored(t, (receiver, sender), Session(receiver, sender, input.client, input.now));
        RelayedWell(State(stored, s.history + [Answered(input.client, sender)]), input.hops, input.client, input.now);
      case Transport(index) =>
        if index !in t.byReceiverIndex {
          FloodedWell(s, input.hops, input.client, index, input.now);
        } else {
          var id := t.byReceiverIndex[index];
          var u := s.(tables := Refreshed(t, id, input.now));
          RefreshSound(t, s.history, id, input.now);
          SamePatterns(t, u.tables, s.history);
          if input.connects {
            SentWell(u, input.client, t.objects[id].dest, index, input.writes, true, input.now);
          }
        }
    }
  }

  lemma ReplyWell(s: State, input: Input)
    requires input.Reply? && Well(s, input.now) && input.now > P.ZERO_TIME
    ensures Well(Apply(s, input), input.now)
  {
    match ExtractWireGuardIndices(input.packet)
    case Some(Response(receiver, sender)) =>
      AnsweredWell(s, input.dest, (sender, receiver), receiver, sender, input.now);
    case Some(Transport(index)) => TrackWell(s, input.client, input.dest, P.Data(index, false, input.now), input.now);
    case _ =>
  }

  lemma SweepPatternsWell(s: State, now: Time)
    requires Well(s, now) && now > P.ZERO_TIME
    ensures Well(Apply(s, SweepPatterns(now)), now)
  {
    SweepReplays(s.tables, s.history, now);
    SoundLater(s.tables, s.history, [PatternsSwept(now)]);
    TimedOne(s.history, PatternsSwept(now), now, now);
    SendsOne(s.history, PatternsSwept(now));
  }

  lemma LaterWell(s: State, clock: Time, later: Time)
    requires Well(s, clock) && clock <= later
    ensures Well(s, later)
  {
    forall client, dest
      ensures EndsBy(Project(s.history, client, dest), later)
    {
      assert EndsBy(Project(s.history, client, dest), clock);
    }
  }

  /**
   Over every run, floods included: every session was stored for a handshake its destination answered, or
   when the pattern between some client and its destination had just become due with the session's two
   indices; every index leads to a destination entitled in this way; and every send over the fast path was
   entitled before its packet came.
   */
  lemma {:induction false} EverySessionDue(inputs: seq<Input>, clock: Time)
    requires InOrder(inputs, clock)
    ensures Sound(Run(inputs).tables, Run(inputs).history) && SendsEntitled(Run(inputs).history)
    ensures Well(Run(inputs), clock)
  {
    if inputs != [] {
      var before, input := inputs[..|inputs| - 1], inputs[|inputs| - 1];
      var s := Run(before);
      var now := if input.ClearSessions? then clock else input.now;
      EverySessionDue(before, now);
      match input
      case ClientPacket(_, _, _, _, _, _, _) => ClientPacketWell(s, input);
      case Reply(_, _, _, _) => ReplyWell(s, input);
      case SweepPatterns(_) => SweepPatternsWell(s, now);
      case _ => SamePatterns(s.tables, Apply(s, input).tables, s.history);
      LaterWell(Run(inputs), now, clock);
    }
  }
}
