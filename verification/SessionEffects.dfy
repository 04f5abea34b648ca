/**
 What handling a packet must do. The other laws about sessions say what may be sent and stored; these say what is:
 which messages go where, in which order; that a handshake response and a pattern that is due store a session; that
 data keeps its session alive; and which sessions a sweep and a clear leave.
 */
module SessionEffects {
  import opened Collections
  import P = Patterns
  import opened Sessions
  import opened SessionPatterns

  type Index = P.Index

  // ---------- What is sent ----------

  /** What happens at one destination of a flood. */
  function HopEvents(hop: Hop, client: Addr, index: Index, now: Time): seq<Event> {
    match hop
    case Written(dest) => [Toward(client, dest, index, now), FloodSend(client, dest, index)]
    case Unwritten(dest) => [Toward(client, dest, index, now)]
    case _ => []
  }

  /** What a flood does, from the outcomes at its destinations alone. */
  function FloodEvents(hops: seq<Hop>, client: Addr, index: Index, now: Time): seq<Event> {
    if hops == [] then [] else HopEvents(hops[0], client, index, now) + FloodEvents(hops[1..], client, index, now)
  }

  lemma {:induction false} FloodEventsLast(hops: seq<Hop>, hop: Hop, client: Addr, index: Index, now: Time)
    ensures FloodEvents(hops + [hop], client, index, now) ==
            FloodEvents(hops, client, index, now) + HopEvents(hop, client, index, now)
  {
    if hops == [] {
      assert [hop][1..] == [] && hops + [hop] == [hop];
    } else {
      assert (hops + [hop])[1..] == hops[1..] + [hop];
      FloodEventsLast(hops[1..], hop, client, index, now);
    }
  }

  lemma {:induction false} FloodedHistory(s: State, hops: seq<Hop>, client: Addr, index: Index, now: Time)
    requires Placed(s.tables)
    ensures Flooded(s, hops, client, index, now).history == s.history + FloodEvents(hops, client, index, now)
  {
    if hops == [] {
      assert s.history + [] == s.history;
    } else {
      var n := |hops| - 1;
      var before := Flooded(s, hops[..n], client, index, now);
      FloodedHistory(s, hops[..n], client, index, now);
      assert hops[..n] + [hops[n]] == hops;
      FloodEventsLast(hops[..n], hops[n], client, index, now);
      OneHop(before, hops[n], client, index, now);
    }
  }

  lemma OneHop(s: State, hop: Hop, client: Addr, index: Index, now: Time)
    requires Placed(s.tables)
    ensures FloodedOne(s, hop, client, index, now).history == s.history + HopEvents(hop, client, index, now)
  {
  }

  /** A handshake message goes, in order, to exactly the destinations that could be written to. */
  lemma {:induction false} RelayedJoin(hops: seq<Hop>, hop: Hop, more: seq<Hop>, client: Addr)
    ensures Relayed(hops + [hop] + more, client) ==
            Relayed(hops, client) + (if hop.Written? then [HandshakeSend(client, hop.dest)] else []) + Relayed(more, client)
  {
    if more == [] {
      assert hops + [hop] + more == hops + [hop] && (hops + [hop])[..|hops|] == hops;
    } else {
      var n := |more| - 1;
      var all := hops + [hop] + more;
      assert all[..|all| - 1] == hops + [hop] + more[..n];
      RelayedJoin(hops, hop, more[..n], client);
    }
  }

  /** The destination that the receiver index of a data packet leads to. */
  function Leads(t: Tables, packet: seq<Byte>): Option<Addr>
    requires Placed(t)
  {
    match ExtractWireGuardIndices(packet)
    case Some(Transport(index)) => if index in t.byReceiverIndex then Some(t.objects[t.byReceiverIndex[index]].dest) else None
    case _ => None
  }

  /** What happens when an input is handled, given where its index leads. */
  function Growth(input: Input, leads: Option<Addr>): seq<Event> {
    match input
    case ClientPacket(packet, client, mapped, hops, connects, writes, now) =>
      if !mapped then []
      else
        (match ExtractWireGuardIndices(packet)
         case None => []
         case Some(Initiation(_)) => Relayed(hops, client)
         case Some(Response(_, sender)) => [Answered(client, sender)] + Relayed(hops, client)
         case Some(Transport(index)) =>
           if leads == None then FloodEvents(hops, client, index, now)
           else if !connects then []
           else if !writes then [Toward(client, leads.value, index, now)]
           else [Toward(client, leads.value, index, now), FastSend(client, leads.value, index)])
    case Reply(packet, dest, client, now) =>
      (match ExtractWireGuardIndices(packet)
       case Some(Response(_, sender)) => [Answered(dest, sender)]
       case Some(Transport(index)) => [Back(dest, client, index, now)]
       case _ => [])
    case SweepPatterns(now) => [PatternsSwept(now)]
    case _ => []
  }

  /**
   Handling an input does exactly this. Data with a known index goes to its one destination, other data to every
   destination that can be reached, in order; handshakes go to all of them; and what a destination sends is noted.
   */
  lemma HistoryExactly(s: State, input: Input)
    requires Placed(s.tables)
    ensures Apply(s, input).history ==
            s.history + Growth(input, if input.ClientPacket? then Leads(s.tables, input.packet) else None)
  {
    if input.ClientPacket? {
      ClientHistory(s, input);
    }
  }

  lemma ClientHistory(s: State, input: Input)
    requires Placed(s.tables) && input.ClientPacket?
    ensures Apply(s, input).history == s.history + Growth(input, Leads(s.tables, input.packet))
  {
    var message := ExtractWireGuardIndices(input.packet);
    if message.Some? && message.value.Transport? && input.mapped {
      var index := message.value.receiver;
      if index !in s.tables.byReceiverIndex {
        FloodedHistory(s, input.hops, input.client, index, input.now);
      } else {
        var dest := s.tables.objects[s.tables.byReceiverIndex[index]].dest;
        var u := s.(tables := Refreshed(s.tables, s.tables.byReceiverIndex[index], input.now));
        if input.connects { SentHistory(u, input.client, dest, index, input.writes, input.now); }
      }
    }
  }

  lemma SentHistory(s: State, client: Addr, dest: Addr, index: Index, written: bool, now: Time)
    requires Placed(s.tables)
    ensures Sent(s, client, dest, index, written, true, now).history ==
            s.history + if written then [Toward(client, dest, index, now), FastSend(client, dest, index)] else [Toward(client, dest, index, now)]
  {
  }

  // ---------- Handshakes ----------

  /** The input is a handshake response from this address, which stores a session under this key. */
  predicate Responds(input: Input, from: Addr, key: (Index, Index), receiver: Index, sender: Index) {
    || (input.ClientPacket? && input.mapped && input.client == from && key == (receiver, sender)
        && ExtractWireGuardIndices(input.packet) == Some(Response(receiver, sender)))
    || (input.Reply? && input.dest == from && key == (sender, receiver)
        && ExtractWireGuardIndices(input.packet) == Some(Response(receiver, sender)))
  }

  /**
   A handshake response, from a client or from a destination, stores its session under its key and its sender
   index, and changes nothing else; data with that index then goes to where the response came from.
   */
  lemma ResponseStores(s: State, input: Input, from: Addr, key: (Index, Index), receiver: Index, sender: Index, data: Input)
    requires Placed(s.tables) && Responds(input, from, key, receiver, sender)
    ensures var t, u := s.tables, Apply(s, input).tables;
            && u.wgSessions.Keys == t.wgSessions.Keys + {key} && u.byReceiverIndex.Keys == t.byReceiverIndex.Keys + {sender}
            && u.objects[u.wgSessions[key]] == Session(receiver, sender, from, input.now)
            && u.byReceiverIndex[sender] == u.wgSessions[key] == |t.objects|
            && (forall k | k in t.wgSessions && k != key :: u.wgSessions[k] == t.wgSessions[k])
            && (forall i | i in t.byReceiverIndex && i != sender :: u.byReceiverIndex[i] == t.byReceiverIndex[i])
            && u.objects[..|t.objects|] == t.objects && u.patterns == t.patterns
    ensures data.ClientPacket? && data.mapped && data.connects && data.writes
            && ExtractWireGuardIndices(data.packet) == Some(Transport(sender)) ==>
              var u := Apply(s, input);
              Apply(u, data).history ==
              u.history + [Toward(data.client, from, sender, data.now), FastSend(data.client, from, sender)]
  {
    var u := Apply(s, input);
    assert u.tables.objects == s.tables.objects + [Session(receiver, sender, from, input.now)];
    HistoryExactly(u, data);
  }

  // ---------- Rebuilding ----------

  /** The table has a session under (receiver, sender) that leads to `dest`. */
  predicate Matches(t: Tables, receiver: Index, sender: Index, dest: Addr)
    requires Placed(t)
  {
    (receiver, sender) in t.wgSessions && t.objects[t.wgSessions[(receiver, sender)]].dest == dest
  }

  /** So it has, seen at `now`, and data with the sender index is not flooded. */
  predicate Held(t: Tables, receiver: Index, sender: Index, dest: Addr, now: Time)
    requires Placed(t)
  {
    && Matches(t, receiver, sender, dest) && t.objects[t.wgSessions[(receiver, sender)]].lastSeen == now
    && sender in t.byReceiverIndex
  }

  /** What a due pattern leaves in the tables: the session is held; it is the indexed one unless another was before. */
  predicate RebuiltFrom(t: Tables, u: Tables, receiver: Index, sender: Index, dest: Addr, now: Time)
    requires Placed(t) && Placed(u)
  {
    && Held(u, receiver, sender, dest, now)
    && (!Matches(t, receiver, sender, dest) ==>
          u.objects[u.wgSessions[(receiver, sender)]] == Session(receiver, sender, dest, now)
          && u.byReceiverIndex[sender] == u.wgSessions[(receiver, sender)])
    && (sender !in t.byReceiverIndex ==> u.objects[u.byReceiverIndex[sender]].dest == dest)
  }

  lemma RebuildHolds(t: Tables, dest: Addr, p: P.Pattern, now: Time)
    requires Placed(t)
    ensures P.Rebuildable(p) ==> RebuiltFrom(t, Rebuilt(t, dest, p, now), p.destIndex, p.clientIndex, dest, now)
    ensures !P.Rebuildable(p) ==> Rebuilt(t, dest, p, now) == t
  {
  }

  /** The history ends a life that is due with these indices. */
  ghost predicate DueNow(h: seq<Event>, client: Addr, dest: Addr, receiver: Index, sender: Index) {
    DueAt(h, |h|, client, dest, receiver, sender)
  }

  /** A life of four packets has a record, which says what is due. */
  lemma DueRecord(before: seq<P.Event>, d: P.Data)
    requires P.Timely(before + [P.Track(d)]) && Due(P.Life(before + [P.Track(d)]))
    ensures P.Run(before).Some?
    ensures var ds, p := P.Life(before + [P.Track(d)]), P.Tracked(P.Run(before), d);
            P.Rebuildable(p) && p.destIndex == P.FirstNonZero(ds, false) && p.clientIndex == P.FirstNonZero(ds, true)
  {
    var evs := before + [P.Track(d)];
    assert evs[..|before|] == before;
    RunOne(before, P.Track(d));
    P.RebuildableIff(evs);
    P.RecordIsSummary(evs);
    assert P.Timely(before) by { assert forall i | 0 <= i < |before| :: before[i] == evs[i]; }
    P.RecordIsSummary(before);
  }

  /** What is due now, in terms of the record's own events. */
  lemma DueProject(h: seq<Event>, client: Addr, dest: Addr, d: P.Data, clock: Time)
    requires Timed(h + [Noted(client, dest, d)], clock)
    ensures Project(h + [Noted(client, dest, d)], client, dest) == Project(h, client, dest) + [P.Track(d)]
    ensures P.Timely(Project(h, client, dest) + [P.Track(d)])
  {
    ProjectOne(h, Noted(client, dest, d), client, dest);
    assert EndsBy(Project(h + [Noted(client, dest, d)], client, dest), clock);
  }

  /**
   Tracking a data packet, at any point of a run: when the life up to and including it is due with two indices,
   the tables hold the session from then on.
   */
  lemma TrackRebuilds(s: State, client: Addr, dest: Addr, d: P.Data, clock: Time, receiver: Index, sender: Index)
    requires Well(s, clock) && P.ZERO_TIME < clock <= d.now
    requires DueNow(s.history + [Noted(client, dest, d)], client, dest, receiver, sender)
    ensures RebuiltFrom(s.tables, TrackedData(s.tables, client, dest, d), receiver, sender, dest, d.now)
  {
    var t := s.tables;
    TimedOne(s.history, Noted(client, dest, d), clock, d.now);
    var g := s.history + [Noted(client, dest, d)];
    assert g[..|g|] == g;
    DueProject(s.history, client, dest, d, d.now);
    DueRecord(Project(s.history, client, dest), d);
    assert Lookup(t, client, dest) == P.Run(Project(s.history, client, dest));
    var p := P.Tracked(Lookup(t, client, dest), d);
    RebuildHolds(t.(patterns := t.patterns[(client, dest) := p]), dest, p, d.now);
  }

  /** When it is not due, no session and no index entry changes. */
  lemma TrackLeaves(s: State, client: Addr, dest: Addr, d: P.Data, clock: Time)
    requires Well(s, clock) && P.ZERO_TIME < clock <= d.now
    requires !Due(P.Life(Project(s.history + [Noted(client, dest, d)], client, dest)))
    ensures TrackedData(s.tables, client, dest, d) ==
            s.tables.(patterns := TrackedData(s.tables, client, dest, d).patterns)
  {
    var t, g := s.tables, s.history + [Noted(client, dest, d)];
    var evs := Project(g, client, dest);
    TimedOne(s.history, Noted(client, dest, d), clock, d.now);
    assert EndsBy(evs, d.now);
    NotedReplay(s.history, client, dest, d, client, dest);
    assert Lookup(t, client, dest) == P.Run(Project(s.history, client, dest));
    P.RebuildableIff(evs);
    var p := P.Tracked(Lookup(t, client, dest), d);
    RebuildHolds(t.(patterns := t.patterns[(client, dest) := p]), dest, p, d.now);
  }

  /** A send after the packet is noted changes no life. */
  lemma SendKeepsDue(h: seq<Event>, e: Event, client: Addr, dest: Addr, receiver: Index, sender: Index)
    requires e.FastSend? || e.FloodSend?
    ensures DueNow(h + [e], client, dest, receiver, sender) <==> DueNow(h, client, dest, receiver, sender)
  {
    ProjectOne(h, e, client, dest);
    assert Project(h, client, dest) + [] == Project(h, client, dest);
    assert h[..|h|] == h && (h + [e])[..|h + [e]|] == h + [e];
  }

  lemma SentRebuilds(s: State, client: Addr, dest: Addr, index: Index, written: bool, fast: bool, now: Time,
                     receiver: Index, sender: Index)
    requires Well(s, now) && now > P.ZERO_TIME
    requires DueNow(Sent(s, client, dest, index, written, fast, now).history, client, dest, receiver, sender)
    ensures RebuiltFrom(s.tables, Sent(s, client, dest, index, written, fast, now).tables, receiver, sender, dest, now)
  {
    var h := s.history + [Toward(client, dest, index, now)];
    if written {
      SendKeepsDue(h, if fast then FastSend(client, dest, index) else FloodSend(client, dest, index), client, dest, receiver, sender);
    } else {
      assert h + [] == h;
    }
    TrackRebuilds(s, client, dest, P.Data(index, true, now), now, receiver, sender);
  }

  /** Over every run: data from a destination that makes its pattern due leaves the session in the tables. */
  lemma ReplyRebuilds(inputs: seq<Input>, input: Input, index: Index, receiver: Index, sender: Index)
    requires input.Reply? && InOrder(inputs + [input], input.now)
    requires ExtractWireGuardIndices(input.packet) == Some(Transport(index))
    requires DueNow(Run(inputs + [input]).history, input.client, input.dest, receiver, sender)
    ensures RebuiltFrom(Run(inputs).tables, Run(inputs + [input]).tables, receiver, sender, input.dest, input.now)
  {
    var s := Before(inputs, input);
    TrackRebuilds(s, input.client, input.dest, P.Data(index, false, input.now), input.now, receiver, sender);
  }

  /** The state before the last input of a run. */
  lemma Before(inputs: seq<Input>, input: Input) returns (s: State)
    requires !input.ClearSessions? && InOrder(inputs + [input], input.now)
    ensures s == Run(inputs) && Run(inputs + [input]) == Apply(s, input) && Well(s, input.now) && input.now > P.ZERO_TIME
  {
    s := Run(inputs);
    OneMore(inputs, input);
    assert (inputs + [input])[..|inputs|] == inputs;
    EverySessionDue(inputs, input.now);
  }

  /** Over every run: so does client data with a known index. */
  lemma KnownDataRebuilds(inputs: seq<Input>, input: Input, index: Index, dest: Addr, receiver: Index, sender: Index)
    requires input.ClientPacket? && input.mapped && input.connects && InOrder(inputs + [input], input.now)
    requires ExtractWireGuardIndices(input.packet) == Some(Transport(index))
    requires Leads(Run(inputs).tables, input.packet) == Some(dest)
    requires DueNow(Run(inputs + [input]).history, input.client, dest, receiver, sender)
    ensures RebuiltFrom(Run(inputs).tables, Run(inputs + [input]).tables, receiver, sender, dest, input.now)
  {
    var s := Before(inputs, input);
    var id := s.tables.byReceiverIndex[index];
    var u := s.(tables := Refreshed(s.tables, id, input.now));
    RefreshSound(s.tables, s.history, id, input.now);
    SamePatterns(s.tables, u.tables, s.history);
    SentRebuilds(u, input.client, dest, index, input.writes, true, input.now, receiver, sender);
  }

  /** Over every run: so does every hop of a flood, as soon as its destination has been handed the data. */
  lemma FloodRebuilds(inputs: seq<Input>, input: Input, index: Index, n: nat, receiver: Index, sender: Index)
    requires input.ClientPacket? && n < |input.hops| && InOrder(inputs + [input], input.now)
    requires input.hops[n].Written? || input.hops[n].Unwritten?
    requires var after := Flooded(Run(inputs), input.hops[..n + 1], input.client, index, input.now);
             DueNow(after.history, input.client, input.hops[n].dest, receiver, sender)
    ensures var before := Flooded(Run(inputs), input.hops[..n], input.client, index, input.now);
            var after := Flooded(Run(inputs), input.hops[..n + 1], input.client, index, input.now);
            RebuiltFrom(before.tables, after.tables, receiver, sender, input.hops[n].dest, input.now)
  {
    var s := Before(inputs, input);
    var before := Flooded(s, input.hops[..n], input.client, index, input.now);
    FloodedNext(s, input.hops, n, input.client, index, input.now);
    FloodedWell(s, input.hops[..n], input.client, index, input.now);
    HopRebuilds(before, input.hops[n], input.client, index, input.now, receiver, sender);
  }

  lemma FloodedNext(s: State, hops: seq<Hop>, n: nat, client: Addr, index: Index, now: Time)
    requires Placed(s.tables) && n < |hops|
    ensures Flooded(s, hops[..n + 1], client, index, now) ==
            FloodedOne(Flooded(s, hops[..n], client, index, now), hops[n], client, index, now)
  {
    assert hops[..n + 1][..n] == hops[..n];
  }

  lemma HopRebuilds(s: State, hop: Hop, client: Addr, index: Index, now: Time, receiver: Index, sender: Index)
    requires Well(s, now) && now > P.ZERO_TIME && (hop.Written? || hop.Unwritten?)
    requires DueNow(FloodedOne(s, hop, client, index, now).history, client, hop.dest, receiver, sender)
    ensures RebuiltFrom(s.tables, FloodedOne(s, hop, client, index, now).tables, receiver, sender, hop.dest, now)
  {
    SentRebuilds(s, client, hop.dest, index, hop.Written?, false, now, receiver, sender);
  }

  // ---------- An index stays ----------

  predicate IndexStays(t: Tables, u: Tables) {
    t.byReceiverIndex.Keys <= u.byReceiverIndex.Keys
  }

  lemma {:induction false} FloodedIndexStays(s: State, hops: seq<Hop>, client: Addr, index: Index, now: Time)
    requires Placed(s.tables)
    ensures IndexStays(s.tables, Flooded(s, hops, client, index, now).tables)
  {
    if hops != [] {
      FloodedIndexStays(s, hops[..|hops| - 1], client, index, now);
    }
  }

  lemma ApplyIndexStays(s: State, input: Input)
    requires Placed(s.tables)
    ensures IndexStays(s.tables, Apply(s, input).tables)
  {
    var message := if input.ClientPacket? then ExtractWireGuardIndices(input.packet) else None;
    if message.Some? && message.value.Transport? {
      FloodedIndexStays(s, input.hops, input.client, message.value.receiver, input.now);
    }
  }

  lemma {:induction false} RunIndexStays(inputs: seq<Input>, more: seq<Input>)
    ensures IndexStays(Run(inputs).tables, Run(inputs + more).tables)
  {
    if more == [] {
      assert inputs + more == inputs;
    } else {
      var n := |more| - 1;
      assert (inputs + more)[..|inputs| + n] == inputs + more[..n];
      RunIndexStays(inputs, more[..n]);
      ApplyIndexStays(Run(inputs + more[..n]), more[n]);
    }
  }

  /** Over every run, once an index is known, data with it goes to one destination and is never flooded again. */
  lemma NeverFloodedAgain(inputs: seq<Input>, more: seq<Input>, data: Input, index: Index)
    requires index in Run(inputs).tables.byReceiverIndex && data.ClientPacket? && data.mapped && data.connects && data.writes
    requires ExtractWireGuardIndices(data.packet) == Some(Transport(index))
    ensures var s := Run(inputs + more); var leads := Leads(s.tables, data.packet);
            && leads.Some?
            && Run(inputs + more + [data]).history ==
               s.history + [Toward(data.client, leads.value, index, data.now), FastSend(data.client, leads.value, index)]
  {
    RunIndexStays(inputs, more);
    OneMore(inputs + more, data);
    HistoryExactly(Run(inputs + more), data);
  }

  // ---------- Staying alive ----------

  /** No session object has been seen after `clock`. */
  predicate SeenBy(t: Tables, clock: Time) {
    forall id | 0 <= id < |t.objects| :: t.objects[id].lastSeen <= clock
  }

  /** Session objects stay, and are seen no earlier than before. */
  predicate SeenLater(t: Tables, u: Tables) {
    && |t.objects| <= |u.objects|
    && forall id | 0 <= id < |t.objects| ::
         u.objects[id] == t.objects[id].(lastSeen := u.objects[id].lastSeen) && t.objects[id].lastSeen <= u.objects[id].lastSeen
  }

  lemma TrackSeen(t: Tables, client: Addr, dest: Addr, d: P.Data)
    requires Placed(t) && SeenBy(t, d.now)
    ensures SeenBy(TrackedData(t, client, dest, d), d.now) && SeenLater(t, TrackedData(t, client, dest, d))
  {
  }

  lemma SeenTrans(t: Tables, u: Tables, v: Tables)
    requires SeenLater(t, u) && SeenLater(u, v)
    ensures SeenLater(t, v)
  {
    forall id | 0 <= id < |t.objects|
      ensures v.objects[id] == t.objects[id].(lastSeen := v.objects[id].lastSeen) && t.objects[id].lastSeen <= v.objects[id].lastSeen
    {
      assert u.objects[id] == t.objects[id].(lastSeen := u.objects[id].lastSeen);
    }
  }

  lemma {:induction false} FloodedSeen(s: State, hops: seq<Hop>, client: Addr, index: Index, now: Time)
    requires Placed(s.tables) && SeenBy(s.tables, now)
    ensures var r := Flooded(s, hops, client, index, now); SeenBy(r.tables, now) && SeenLater(s.tables, r.tables)
  {
    if hops != [] {
      var hop, before := hops[|hops| - 1], Flooded(s, hops[..|hops| - 1], client, index, now);
      FloodedSeen(s, hops[..|hops| - 1], client, index, now);
      if hop.Unwritten? || hop.Written? {
        TrackSeen(before.tables, client, hop.dest, P.Data(index, true, now));
        SeenTrans(s.tables, before.tables, TrackedData(before.tables, client, hop.dest, P.Data(index, true, now)));
      }
    }
  }

  lemma ClientSeen(s: State, input: Input)
    requires Placed(s.tables) && input.ClientPacket? && SeenBy(s.tables, input.now)
    ensures SeenBy(Apply(s, input).tables, input.now) && SeenLater(s.tables, Apply(s, input).tables)
  {
    var message := ExtractWireGuardIndices(input.packet);
    if message.Some? && message.value.Transport? && input.mapped {
      var index, t := message.value.receiver, s.tables;
      if index !in t.byReceiverIndex {
        FloodedSeen(s, input.hops, input.client, index, input.now);
      } else {
        var u := Refreshed(t, t.byReceiverIndex[index], input.now);
        var dest, d := t.objects[t.byReceiverIndex[index]].dest, P.Data(index, true, input.now);
        TrackSeen(u, input.client, dest, d);
        SeenTrans(t, u, TrackedData(u, input.client, dest, d));
      }
    }
  }

  lemma ApplySeen(s: State, input: Input, clock: Time)
    requires Placed(s.tables) && SeenBy(s.tables, clock) && (!input.ClearSessions? ==> clock <= input.now)
    ensures SeenBy(Apply(s, input).tables, if input.ClearSessions? then clock else input.now)
    ensures SeenLater(s.tables, Apply(s, input).tables)
  {
    if input.ClientPacket? {
      ClientSeen(s, input);
    } else if input.Reply? {
      var message := ExtractWireGuardIndices(input.packet);
      if message.Some? && message.value.Transport? {
        TrackSeen(s.tables, input.client, input.dest, P.Data(message.value.receiver, false, input.now));
      }
    }
  }

  lemma {:induction false} RunSeen(inputs: seq<Input>, clock: Time)
    requires InOrder(inputs, clock)
    ensures SeenBy(Run(inputs).tables, clock)
  {
    if inputs != [] {
      var n := |inputs| - 1;
      var now := if inputs[n].ClearSessions? then clock else inputs[n].now;
      RunSeen(inputs[..n], now);
      ApplySeen(Run(inputs[..n]), inputs[n], now);
    }
  }

  lemma {:induction false} MoreSeen(inputs: seq<Input>, more: seq<Input>, clock: Time)
    requires InOrder(inputs + more, clock)
    ensures SeenLater(Run(inputs).tables, Run(inputs + more).tables)
  {
    if more == [] {
      assert inputs + more == inputs;
    } else {
      var n := |more| - 1;
      var all := inputs + more;
      assert all[..|all| - 1] == inputs + more[..n];
      var now := if more[n].ClearSessions? then clock else more[n].now;
      MoreSeen(inputs, more[..n], now);
      RunSeen(inputs + more[..n], now);
      ApplySeen(Run(inputs + more[..n]), more[n], now);
      SeenTrans(Run(inputs).tables, Run(inputs + more[..n]).tables, Run(all).tables);
    }
  }

  /** Data with a known index marks the session it leads to as seen. */
  lemma DataIsSeen(s: State, data: Input, index: Index)
    requires Placed(s.tables) && data.ClientPacket? && data.mapped && SeenBy(s.tables, data.now)
    requires ExtractWireGuardIndices(data.packet) == Some(Transport(index)) && index in s.tables.byReceiverIndex
    ensures var id, u := s.tables.byReceiverIndex[index], Apply(s, data).tables;
            id < |u.objects| && u.objects[id].lastSeen == data.now
  {
    var id := s.tables.byReceiverIndex[index];
    var u := Refreshed(s.tables, id, data.now);
    TrackSeen(u, data.client, s.tables.objects[id].dest, P.Data(index, true, data.now));
  }

  /**
   Over every run: once data has gone to a session, no sweep up to fifteen minutes later removes that session,
   whatever happens in between.
   */
  lemma UsedSessionKept(inputs: seq<Input>, data: Input, index: Index, more: seq<Input>, key: (Index, Index), now: Time)
    requires data.ClientPacket? && data.mapped && ExtractWireGuardIndices(data.packet) == Some(Transport(index))
    requires InOrder(inputs + [data], data.now) && InOrder(inputs + [data] + more, now) && now - data.now <= SESSION_IDLE
    requires index in Run(inputs).tables.byReceiverIndex
    requires var t := Run(inputs + [data] + more).tables;
             key in t.wgSessions && t.wgSessions[key] == Run(inputs).tables.byReceiverIndex[index]
    ensures key in Run(inputs + [data] + more + [SweepSessions(now)]).tables.wgSessions
  {
    var s := Before(inputs, data);
    RunSeen(inputs, data.now) by { assert (inputs + [data])[..|inputs|] == inputs; }
    DataIsSeen(s, data, index);
    MoreSeen(inputs + [data], more, now);
    OneMore(inputs + [data] + more, SweepSessions(now));
  }

  // ---------- What sweeps and clears leave ----------

  /** Only the keyed table and the gauge change, and keys that stay keep their session. */
  predicate OnlyDrops(s: State, r: State) {
    && r == s.(tables := s.tables.(wgSessions := r.tables.wgSessions, gauge := r.tables.gauge))
    && (forall k | k in r.tables.wgSessions :: k in s.tables.wgSessions && r.tables.wgSessions[k] == s.tables.wgSessions[k])
    && r.tables.gauge == s.tables.gauge - (|s.tables.wgSessions| - |r.tables.wgSessions|)
  }

  /** A sweep drops exactly the sessions not seen for fifteen minutes. */
  lemma SweepExactly(s: State, now: Time, key: (Index, Index))
    requires Placed(s.tables)
    ensures OnlyDrops(s, Apply(s, SweepSessions(now)))
    ensures key in Apply(s, SweepSessions(now)).tables.wgSessions <==>
            key in s.tables.wgSessions && now - s.tables.objects[s.tables.wgSessions[key]].lastSeen <= 15 * 60 * 1_000_000_000
  {
  }

  /** A clear drops exactly the sessions that lead to the address. */
  lemma ClearExactly(s: State, ip: string, key: (Index, Index))
    requires Placed(s.tables)
    ensures OnlyDrops(s, Apply(s, ClearSessions(ip)))
    ensures key in Apply(s, ClearSessions(ip)).tables.wgSessions <==>
            key in s.tables.wgSessions && s.tables.objects[s.tables.wgSessions[key]].dest.ip != ip
  {
  }
}
