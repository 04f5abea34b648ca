/**
 WireGuard sessions in the relay. A handshake response, seen from a client or from a destination, stores
 a session; data in both directions can rebuild one; and transport data is forwarded to the destination
 the receiver index stands for, or flooded to all destinations when the index is unknown.

 Session objects are shared by two tables, so they live in a sequence of objects and the tables hold
 positions in it. The history records what was observed and sent.
 */
module Sessions {
  import opened Collections
  import opened Patterns

  const SESSION_IDLE: Time := 900_000_000_000

  datatype Addr = Addr(ip: string, port: nat)

  // ---------- Messages: section 5.4 of the WireGuard whitepaper ----------

  type Byte = x: nat | x < 256

  const HANDSHAKE_INITIATION: Byte := 1
  const HANDSHAKE_RESPONSE: Byte := 2
  const COOKIE_REPLY: Byte := 3
  const TRANSPORT_DATA: Byte := 4

  datatype Message = Initiation(sender: Index) | Response(receiver: Index, sender: Index) | Transport(receiver: Index)

  function LittleEndian(b: seq<Byte>): Index
    requires |b| == 4
  {
    (b[0] as nat) + 0x100 * (b[1] as nat) + 0x1_0000 * (b[2] as nat) + 0x100_0000 * (b[3] as nat)
  }

  function ExtractWireGuardIndices(packet: seq<Byte>): Option<Message> {
    if |packet| < 12 then None
    else if packet[0] == HANDSHAKE_INITIATION then Some(Initiation(LittleEndian(packet[4..8])))
    else if packet[0] == HANDSHAKE_RESPONSE then
      Some(Response(LittleEndian(packet[8..12]), LittleEndian(packet[4..8])))
    else if packet[0] == TRANSPORT_DATA then Some(Transport(LittleEndian(packet[4..8])))
    else None
  }

  /** An index as the four bytes a message carries. */
  function Bytes(i: Index): seq<Byte>
    requires i < 0x1_0000_0000
  {
    [i % 0x100, i / 0x100 % 0x100, i / 0x100 / 0x100 % 0x100, i / 0x100 / 0x100 / 0x100]
  }

  /** The indices fit into four bytes. */
  predicate Encodable(m: Message) {
    match m
    case Initiation(s) => s < 0x1_0000_0000
    case Response(r, s) => r < 0x1_0000_0000 && s < 0x1_0000_0000
    case Transport(r) => r < 0x1_0000_0000
  }

  /** A message on the wire: type, three reserved bytes, its indices, and the rest. */
  function Encode(m: Message, rest: seq<Byte>): seq<Byte>
    requires Encodable(m)
  {
    match m
    case Initiation(s) => [HANDSHAKE_INITIATION, 0, 0, 0] + Bytes(s) + rest
    case Response(r, s) => [HANDSHAKE_RESPONSE, 0, 0, 0] + Bytes(s) + Bytes(r) + rest
    case Transport(r) => [TRANSPORT_DATA, 0, 0, 0] + Bytes(r) + rest
  }

  lemma BytesRoundTrip(i: Index)
    requires i < 0x1_0000_0000
    ensures LittleEndian(Bytes(i)) == i
  {
    var a := i / 0x100;
    var b := a / 0x100;
    assert i == 0x100 * a + i % 0x100 && a == 0x100 * b + a % 0x100 && b == 0x100 * (b / 0x100) + b % 0x100;
  }

  /** Reading the indices of an encoded message of sufficient length gives the message back. */
  lemma ExtractEncoded(m: Message, rest: seq<Byte>)
    requires Encodable(m) && |Encode(m, rest)| >= 12
    ensures ExtractWireGuardIndices(Encode(m, rest)) == Some(m)
  {
    var p := Encode(m, rest);
    match m
    case Initiation(s) => BytesRoundTrip(s); assert p[4..8] == Bytes(s);
    case Response(r, s) => BytesRoundTrip(r); BytesRoundTrip(s); assert p[4..8] == Bytes(s) && p[8..12] == Bytes(r);
    case Transport(r) => BytesRoundTrip(r); assert p[4..8] == Bytes(r);
  }

  lemma IndexRoundTrip(b: seq<Byte>)
    requires |b| == 4
    ensures LittleEndian(b) < 0x1_0000_0000 && Bytes(LittleEndian(b)) == b
  {
    var b2 := (b[2] as nat) + 0x100 * (b[3] as nat);
    var b1 := (b[1] as nat) + 0x100 * b2;
    assert LittleEndian(b) == (b[0] as nat) + 0x100 * b1;
    assert b1 / 0x100 == b2 && b2 / 0x100 == b[3];
  }

  /** A packet with its three reserved bytes cleared, as senders leave them. */
  function Cleared(packet: seq<Byte>): seq<Byte>
    requires |packet| >= 4
  {
    [packet[0], 0, 0, 0] + packet[4..]
  }

  /**
   Reading succeeds with message `m` exactly on the packets of at least twelve bytes that encode `m`, whatever
   is in the reserved bytes and after the indices.
   */
  lemma ExtractedIff(packet: seq<Byte>, m: Message)
    ensures ExtractWireGuardIndices(packet) == Some(m) <==>
            |packet| >= 12 && Encodable(m) && exists rest :: Cleared(packet) == Encode(m, rest)
  {
    if ExtractWireGuardIndices(packet) == Some(m) {
      var rest := ExtractedEncodes(packet, m);
    }
    if |packet| >= 12 && Encodable(m) {
      if rest :| Cleared(packet) == Encode(m, rest) {
        ExtractEncoded(m, rest);
        SameIndices(packet);
      }
    }
  }

  /** The reserved bytes do not matter. */
  lemma SameIndices(packet: seq<Byte>)
    requires |packet| >= 12
    ensures ExtractWireGuardIndices(packet) == ExtractWireGuardIndices(Cleared(packet))
  {
    var c := Cleared(packet);
    assert c[4..8] == packet[4..8] && c[8..12] == packet[8..12];
  }

  lemma ExtractedEncodes(packet: seq<Byte>, m: Message) returns (rest: seq<Byte>)
    requires ExtractWireGuardIndices(packet) == Some(m)
    ensures |packet| >= 12 && Encodable(m) && Cleared(packet) == Encode(m, rest)
  {
    IndexRoundTrip(packet[4..8]);
    IndexRoundTrip(packet[8..12]);
    rest := if m.Response? then packet[12..] else packet[8..];
    assert packet[4..] == packet[4..8] + packet[8..12] + packet[12..];
    assert packet[4..] == packet[4..8] + packet[8..];
  }

  // ---------- The tables ----------

  datatype Session = Session(receiver: Index, sender: Index, dest: Addr, lastSeen: Time)

  datatype Tables = Tables(
    objects: seq<Session>,
    wgSessions: map<(Index, Index), nat>,
    byReceiverIndex: map<Index, nat>,
    patterns: map<(Addr, Addr), Pattern>,
    gauge: int)

  /** Create a session, put it under its key (counting only new keys) and index it by its sender index. */
  function Stored(t: Tables, key: (Index, Index), s: Session): Tables {
    t.(objects := t.objects + [s],
       wgSessions := t.wgSessions[key := |t.objects|],
       byReceiverIndex := t.byReceiverIndex[s.sender := |t.objects|],
       gauge := t.gauge + if key in t.wgSessions then 0 else 1)
  }

  predicate Placed(t: Tables) {
    && (forall k | k in t.wgSessions :: t.wgSessions[k] < |t.objects|)
    && (forall i | i in t.byReceiverIndex :: t.byReceiverIndex[i] < |t.objects|)
  }

  function Refreshed(t: Tables, id: nat, now: Time): Tables
    requires id < |t.objects|
  {
    t.(objects := t.objects[id := t.objects[id].(lastSeen := now)])
  }

  /** Refresh or rebuild a session from a pattern that allows it. */
  function Rebuilt(t: Tables, dest: Addr, p: Pattern, now: Time): (r: Tables)
    requires Placed(t)
    ensures Placed(r)
  {
    var key := (p.destIndex, p.clientIndex);
    if !Rebuildable(p) then t
    else if key in t.wgSessions && t.objects[t.wgSessions[key]].dest == dest then
      var u := Refreshed(t, t.wgSessions[key], now);
      if p.clientIndex in u.byReceiverIndex then u
      else u.(byReceiverIndex := u.byReceiverIndex[p.clientIndex := t.wgSessions[key]])
    else Stored(t, key, Session(p.destIndex, p.clientIndex, dest, now))
  }

  /** Record one data packet; only an existing pattern is considered for a rebuild. */
  function TrackedData(t: Tables, client: Addr, dest: Addr, d: Data): (r: Tables)
    requires Placed(t)
    ensures Placed(r)
  {
    var key := (client, dest);
    var p := Tracked(if key in t.patterns then Some(t.patterns[key]) else None, d);
    var u := t.(patterns := t.patterns[key := p]);
    if key in t.patterns then Rebuilt(u, dest, p, d.now) else u
  }

  predicate IdleSession(s: Session, now: Time) {
    now - s.lastSeen > SESSION_IDLE
  }

  /** The sweep and the clear drop sessions from the keyed table only; the index keeps them. */
  function KeepSessions(t: Tables, keep: Session -> bool): (r: Tables)
    requires Placed(t)
    ensures Placed(r)
  {
    var kept := map k | k in t.wgSessions && keep(t.objects[t.wgSessions[k]]) :: t.wgSessions[k];
    t.(wgSessions := kept, gauge := t.gauge - (|t.wgSessions| - |kept|))
  }

  function SweptSessions(t: Tables, now: Time): Tables
    requires Placed(t)
  {
    KeepSessions(t, (s: Session) => !IdleSession(s, now))
  }

  function ClearedSessions(t: Tables, ip: string): Tables
    requires Placed(t)
  {
    KeepSessions(t, (s: Session) => s.dest.ip != ip)
  }

  function SweptPatterns(t: Tables, now: Time): Tables {
    t.(patterns := map k | k in t.patterns && !IdlePattern(t.patterns[k], now) :: t.patterns[k])
  }

  // ---------- Packets ----------

  /** What happened: observations, and sends of transport data. */
  datatype Event =
    | Answered(from: Addr, sender: Index)                       // a handshake response was seen from this address
    | Toward(client: Addr, dest: Addr, index: Index, at: Time)  // client data was handed on towards the destination
    | Back(dest: Addr, client: Addr, index: Index, at: Time)    // the destination sent data for the client
    | PatternsSwept(at: Time)                                   // idle patterns were removed
    | FastSend(client: Addr, dest: Addr, index: Index)          // sent to the one destination of the index
    | FloodSend(client: Addr, dest: Addr, index: Index)         // sent to one of all destinations
    | HandshakeSend(client: Addr, dest: Addr)                   // a handshake message was sent to one of all destinations

  datatype State = State(tables: Tables, history: seq<Event>)

  /** The outcome of reaching one destination of a mapping. */
  datatype Hop = Unresolved | Unconnected(dest: Addr) | Unwritten(dest: Addr) | Written(dest: Addr)

  /** Track a data packet of a client and note it. */
  function Sent(s: State, client: Addr, dest: Addr, index: Index, written: bool, fast: bool, now: Time): (r: State)
    requires Placed(s.tables)
    ensures Placed(r.tables)
  {
    State(TrackedData(s.tables, client, dest, Data(index, true, now)),
          s.history + [Toward(client, dest, index, now)]
          + if written then [if fast then FastSend(client, dest, index) else FloodSend(client, dest, index)] else [])
  }

  /** One destination of a flood. */
  function FloodedOne(s: State, hop: Hop, client: Addr, index: Index, now: Time): (r: State)
    requires Placed(s.tables)
    ensures Placed(r.tables)
  {
    match hop
    case Unresolved => s
    case Unconnected(_) => s
    case Unwritten(dest) => Sent(s, client, dest, index, false, false, now)
    case Written(dest) => Sent(s, client, dest, index, true, false, now)
  }

  /** All destinations of a flood, in order. */
  function Flooded(s: State, hops: seq<Hop>, client: Addr, index: Index, now: Time): (r: State)
    requires Placed(s.tables)
    ensures Placed(r.tables)
  {
    if hops == [] then s
    else FloodedOne(Flooded(s, hops[..|hops| - 1], client, index, now), hops[|hops| - 1], client, index, now)
  }

  /** A handshake message goes to every destination that can be reached. */
  function Relayed(hops: seq<Hop>, client: Addr): seq<Event> {
    if hops == [] then []
    else
      var hop := hops[|hops| - 1];
      Relayed(hops[..|hops| - 1], client) + if hop.Written? then [HandshakeSend(client, hop.dest)] else []
  }

  /**
   A packet from a client. `mapped` says whether the client has a proxy mapping, `hops` how its
   destinations were reached, `connects` and `writes` how the fast path's destination was.
   */
  function AfterClientPacket(s: State, packet: seq<Byte>, client: Addr, mapped: bool, hops: seq<Hop>,
                             connects: bool, writes: bool, now: Time): (r: State)
    requires Placed(s.tables)
    ensures Placed(r.tables)
  {
    var t, message := s.tables, ExtractWireGuardIndices(packet);
    if message == None || !mapped then s
    else
      match message.value
      case Initiation(_) => s.(history := s.history + Relayed(hops, client))
      case Response(receiver, sender) =>
        State(Stored(t, (receiver, sender), Session(receiver, sender, client, now)),
              s.history + [Answered(client, sender)] + Relayed(hops, client))
      case Transport(index) =>
        if index !in t.byReceiverIndex then Flooded(s, hops, client, index, now)
        else
          var id := t.byReceiverIndex[index];
          var u := s.(tables := Refreshed(t, id, now));
          if !connects then u else Sent(u, client, t.objects[id].dest, index, writes, true, now)
  }

  /** A packet that a destination sent back for a client. */
  function AfterReply(s: State, packet: seq<Byte>, dest: Addr, client: Addr, now: Time): (r: State)
    requires Placed(s.tables)
    ensures Placed(r.tables)
  {
    match ExtractWireGuardIndices(packet)
    case Some(Response(receiver, sender)) =>
      State(Stored(s.tables, (sender, receiver), Session(receiver, sender, dest, now)),
            s.history + [Answered(dest, sender)])
    case Some(Transport(index)) =>
      State(TrackedData(s.tables, client, dest, Data(index, false, now)), s.history + [Back(dest, client, index, now)])
    case _ => s
  }

  // ---------- Runs ----------

  datatype Input =
    | ClientPacket(packet: seq<Byte>, client: Addr, mapped: bool, hops: seq<Hop>, connects: bool, writes: bool, now: Time)
    | Reply(packet: seq<Byte>, dest: Addr, client: Addr, now: Time)
    | SweepSessions(now: Time)
    | ClearSessions(ip: string)
    | SweepPatterns(now: Time)

  const Start := State(Tables([], map[], map[], map[], 0), [])

  function Apply(s: State, input: Input): (r: State)
    requires Placed(s.tables)
    ensures Placed(r.tables)
  {
    match input
    case ClientPacket(packet, client, mapped, hops, connects, writes, now) =>
      AfterClientPacket(s, packet, client, mapped, hops, connects, writes, now)
    case Reply(packet, dest, client, now) => AfterReply(s, packet, dest, client, now)
    case SweepSessions(now) => s.(tables := SweptSessions(s.tables, now))
    case ClearSessions(ip) => s.(tables := ClearedSessions(s.tables, ip))
    case SweepPatterns(now) => State(SweptPatterns(s.tables, now), s.history + [PatternsSwept(now)])
  }

  function Run(inputs: seq<Input>): (r: State)
    ensures Placed(r.tables)
  {
    if inputs == [] then Start else Apply(Run(inputs[..|inputs| - 1]), inputs[|inputs| - 1])
  }

  // ---------- Provenance ----------

  /** Client data with this index went towards `dest`, and `dest` sent data for that client. */
  ghost predicate SpokeBothWays(h: seq<Event>, client: Addr, dest: Addr, index: Index) {
    WentToward(h, client, dest, index) && exists j :: CameBack(h, dest, client, j)
  }

  ghost predicate WentToward(h: seq<Event>, client: Addr, dest: Addr, index: Index) {
    exists at :: Toward(client, dest, index, at) in h
  }

  ghost predicate CameBack(h: seq<Event>, dest: Addr, client: Addr, index: Index) {
    exists at :: Back(dest, client, index, at) in h
  }

  /** What entitles `dest` to receive data for `index`. */
  ghost predicate Justified(h: seq<Event>, index: Index, dest: Addr) {
    || Answered(dest, index) in h
    || exists client :: SpokeBothWays(h, client, dest, index)
  }

  /** Every index leads to a destination entitled to it. */
  ghost predicate Provenance(t: Tables, h: seq<Event>)
    requires Placed(t)
  {
    forall i | i in t.byReceiverIndex :: Justified(h, i, t.objects[t.byReceiverIndex[i]].dest)
  }

  /** A pattern's indices were seen on the wire. */
  ghost predicate PatternSeen(h: seq<Event>, client: Addr, dest: Addr, p: Pattern) {
    && (p.clientIndex != 0 ==> WentToward(h, client, dest, p.clientIndex))
    && (p.destIndex != 0 ==> CameBack(h, dest, client, p.destIndex))
  }

  ghost predicate PatternsSeen(t: Tables, h: seq<Event>) {
    forall client, dest | (client, dest) in t.patterns :: PatternSeen(h, client, dest, t.patterns[(client, dest)])
  }

  /** Every session in the keyed table can be found by its sender index. */
  predicate Indexed(t: Tables)
    requires Placed(t)
  {
    forall k | k in t.wgSessions :: t.objects[t.wgSessions[k]].sender in t.byReceiverIndex
  }

  ghost predicate Good(t: Tables, h: seq<Event>) {
    Placed(t) && Indexed(t) && t.gauge == |t.wgSessions| && Provenance(t, h) && PatternsSeen(t, h)
  }

  lemma SeenLater(h: seq<Event>, more: seq<Event>, client: Addr, dest: Addr, i: Index)
    ensures WentToward(h, client, dest, i) ==> WentToward(h + more, client, dest, i)
    ensures CameBack(h, dest, client, i) ==> CameBack(h + more, dest, client, i)
  {
    if at :| Toward(client, dest, i, at) in h { assert Toward(client, dest, i, at) in h + more; }
    if at :| Back(dest, client, i, at) in h { assert Back(dest, client, i, at) in h + more; }
  }

  lemma JustifiedLater(h: seq<Event>, more: seq<Event>, index: Index, dest: Addr)
    requires Justified(h, index, dest)
    ensures Justified(h + more, index, dest)
  {
    if client :| SpokeBothWays(h, client, dest, index) {
      var j :| CameBack(h, dest, client, j);
      SeenLater(h, more, client, dest, index);
      SeenLater(h, more, client, dest, j);
      assert SpokeBothWays(h + more, client, dest, index);
    }
  }

  lemma GoodLater(t: Tables, h: seq<Event>, more: seq<Event>)
    requires Good(t, h)
    ensures Good(t, h + more)
  {
    forall i | i in t.byReceiverIndex
      ensures Justified(h + more, i, t.objects[t.byReceiverIndex[i]].dest)
    {
      JustifiedLater(h, more, i, t.objects[t.byReceiverIndex[i]].dest);
    }
    forall client, dest | (client, dest) in t.patterns
      ensures PatternSeen(h + more, client, dest, t.patterns[(client, dest)])
    {
      SeenLater(h, more, client, dest, t.patterns[(client, dest)].clientIndex);
      SeenLater(h, more, client, dest, t.patterns[(client, dest)].destIndex);
    }
  }

  lemma StoreGood(t: Tables, h: seq<Event>, key: (Index, Index), s: Session)
    requires Good(t, h) && Justified(h, s.sender, s.dest)
    ensures Good(Stored(t, key, s), h)
  {
    PutSize(t.wgSessions, key, |t.objects|);
    StoreProvenance(t, h, key, s);
  }

  lemma StoreProvenance(t: Tables, h: seq<Event>, key: (Index, Index), s: Session)
    requires Placed(t) && Indexed(t) && Provenance(t, h) && Justified(h, s.sender, s.dest)
    ensures Placed(Stored(t, key, s)) && Indexed(Stored(t, key, s)) && Provenance(Stored(t, key, s), h)
  {
  }

  lemma RebuildGood(t: Tables, h: seq<Event>, client: Addr, dest: Addr, p: Pattern, now: Time)
    requires Good(t, h) && PatternSeen(h, client, dest, p)
    ensures Good(Rebuilt(t, dest, p, now), h)
  {
    if Rebuildable(p) {
      assert SpokeBothWays(h, client, dest, p.clientIndex);
      var key := (p.destIndex, p.clientIndex);
      if !(key in t.wgSessions && t.objects[t.wgSessions[key]].dest == dest) {
        StoreGood(t, h, key, Session(p.destIndex, p.clientIndex, dest, now));
      }
    }
  }

  lemma TrackGood(t: Tables, h: seq<Event>, client: Addr, dest: Addr, d: Data)
    requires Good(t, h)
    requires if d.fromClient then WentToward(h, client, dest, d.index) else CameBack(h, dest, client, d.index)
    ensures Good(TrackedData(t, client, dest, d), h)
  {
    var key := (client, dest);
    var p := Tracked(if key in t.patterns then Some(t.patterns[key]) else None, d);
    var u := t.(patterns := t.patterns[key := p]);
    assert PatternSeen(h, client, dest, p);
    assert Good(u, h);
    RebuildGood(u, h, client, dest, p, d.now);
  }

  lemma KeepGood(t: Tables, h: seq<Event>, keep: Session -> bool)
    requires Good(t, h)
    ensures Good(KeepSessions(t, keep), h)
  {
  }

  /**
   In the history, every send over the fast path was justified by what came before its own packet, whose
   hand-over is the event right before the send.
   */
  ghost predicate SendsJustified(h: seq<Event>) {
    forall n | 0 <= n < |h| && h[n].FastSend? :: n > 0 && Justified(h[..n - 1], h[n].index, h[n].dest)
  }

  lemma SendsLater(h: seq<Event>, e: Event)
    requires SendsJustified(h) && (e.FastSend? ==> h != [] && Justified(h[..|h| - 1], e.index, e.dest))
    ensures SendsJustified(h + [e])
  {
    var g := h + [e];
    forall n | 0 <= n < |g| && g[n].FastSend?
      ensures n > 0 && Justified(g[..n - 1], g[n].index, g[n].dest)
    {
      if n < |h| { assert h[n].FastSend?; }
      assert n > 0 && g[..n - 1] == h[..n - 1];
    }
  }

  /** Forwarding a handshake sends no data. */
  lemma {:induction false} RelayedSends(h: seq<Event>, hops: seq<Hop>, client: Addr)
    requires SendsJustified(h)
    ensures SendsJustified(h + Relayed(hops, client))
  {
    if hops == [] {
      assert h + Relayed(hops, client) == h;
    } else {
      var n := |hops| - 1;
      var g := h + Relayed(hops[..n], client);
      RelayedSends(h, hops[..n], client);
      if hops[n].Written? {
        SendsLater(g, HandshakeSend(client, hops[n].dest));
        assert h + Relayed(hops, client) == g + [HandshakeSend(client, hops[n].dest)];
      } else {
        assert h + Relayed(hops, client) == g;
      }
    }
  }

  lemma RelayedGood(s: State, hops: seq<Hop>, client: Addr)
    requires Good(s.tables, s.history) && SendsJustified(s.history)
    ensures Good(s.tables, s.history + Relayed(hops, client)) && SendsJustified(s.history + Relayed(hops, client))
  {
    GoodLater(s.tables, s.history, Relayed(hops, client));
    RelayedSends(s.history, hops, client);
  }

  lemma SentGood(s: State, client: Addr, dest: Addr, index: Index, written: bool, fast: bool, now: Time)
    requires Good(s.tables, s.history) && SendsJustified(s.history)
    requires fast ==> Justified(s.history, index, dest)
    ensures var r := Sent(s, client, dest, index, written, fast, now);
            Good(r.tables, r.history) && SendsJustified(r.history)
  {
    var h := s.history + [Toward(client, dest, index, now)];
    var e := if fast then FastSend(client, dest, index) else FloodSend(client, dest, index);
    GoodLater(s.tables, s.history, [Toward(client, dest, index, now)]);
    SendsLater(s.history, Toward(client, dest, index, now));
    TrackGood(s.tables, h, client, dest, Data(index, true, now));
    var t := TrackedData(s.tables, client, dest, Data(index, true, now));
    if written {
      assert h[..|h| - 1] == s.history;
      GoodLater(t, h, [e]);
      SendsLater(h, e);
    } else {
      assert h + [] == h;
    }
  }

  lemma {:induction false} FloodedGood(s: State, hops: seq<Hop>, client: Addr, index: Index, now: Time)
    requires Good(s.tables, s.history) && SendsJustified(s.history)
    ensures var r := Flooded(s, hops, client, index, now); Good(r.tables, r.history) && SendsJustified(r.history)
  {
    if hops != [] {
      var hop, before := hops[|hops| - 1], Flooded(s, hops[..|hops| - 1], client, index, now);
      FloodedGood(s, hops[..|hops| - 1], client, index, now);
      if hop.Unwritten? || hop.Written? {
        SentGood(before, client, hop.dest, index, hop.Written?, false, now);
      }
    }
  }

  lemma AnsweredGood(s: State, from: Addr, key: (Index, Index), receiver: Index, sender: Index, now: Time)
    requires Good(s.tables, s.history) && SendsJustified(s.history)
    ensures Good(Stored(s.tables, key, Session(receiver, sender, from, now)), s.history + [Answered(from, sender)])
    ensures SendsJustified(s.history + [Answered(from, sender)])
  {
    GoodLater(s.tables, s.history, [Answered(from, sender)]);
    SendsLater(s.history, Answered(from, sender));
    StoreGood(s.tables, s.history + [Answered(from, sender)], key, Session(receiver, sender, from, now));
  }

  lemma ClientResponseGood(s: State, client: Addr, receiver: Index, sender: Index, hops: seq<Hop>, now: Time)
    requires Good(s.tables, s.history) && SendsJustified(s.history)
    ensures var h := s.history + [Answered(client, sender)] + Relayed(hops, client);
            Good(Stored(s.tables, (receiver, sender), Session(receiver, sender, client, now)), h) && SendsJustified(h)
  {
    AnsweredGood(s, client, (receiver, sender), receiver, sender, now);
    var stored := Stored(s.tables, (receiver, sender), Session(receiver, sender, client, now));
    RelayedGood(State(stored, s.history + [Answered(client, sender)]), hops, client);
  }

  lemma ClientPacketGood(s: State, packet: seq<Byte>, client: Addr, mapped: bool, hops: seq<Hop>,
                         connects: bool, writes: bool, now: Time)
    requires Good(s.tables, s.history) && SendsJustified(s.history)
    ensures var r := AfterClientPacket(s, packet, client, mapped, hops, connects, writes, now);
            Good(r.tables, r.history) && SendsJustified(r.history)
  {
    var t, message := s.tables, ExtractWireGuardIndices(packet);
    if message.Some? && mapped {
      match message.value
      case Initiation(_) => RelayedGood(s, hops, client);
      case Response(receiver, sender) => ClientResponseGood(s, client, receiver, sender, hops, now);
      case Transport(index) =>
        if index !in t.byReceiverIndex {
          FloodedGood(s, hops, client, index, now);
        } else {
          var u := s.(tables := Refreshed(t, t.byReceiverIndex[index], now));
          assert Good(u.tables, u.history);
          if connects {
            SentGood(u, client, t.objects[t.byReceiverIndex[index]].dest, index, writes, true, now);
          }
        }
    }
  }

  lemma ReplyGood(s: State, packet: seq<Byte>, dest: Addr, client: Addr, now: Time)
    requires Good(s.tables, s.history) && SendsJustified(s.history)
    ensures var r := AfterReply(s, packet, dest, client, now); Good(r.tables, r.history) && SendsJustified(r.history)
  {
    match ExtractWireGuardIndices(packet)
    case Some(Response(receiver, sender)) => AnsweredGood(s, dest, (sender, receiver), receiver, sender, now);
    case Some(Transport(index)) =>
      GoodLater(s.tables, s.history, [Back(dest, client, index, now)]);
      SendsLater(s.history, Back(dest, client, index, now));
      TrackGood(s.tables, s.history + [Back(dest, client, index, now)], client, dest, Data(index, false, now));
    case _ =>
  }

  lemma ApplyGood(s: State, input: Input)
    requires Good(s.tables, s.history) && SendsJustified(s.history)
    ensures Good(Apply(s, input).tables, Apply(s, input).history) && SendsJustified(Apply(s, input).history)
  {
    match input
    case ClientPacket(packet, client, mapped, hops, connects, writes, now) =>
      ClientPacketGood(s, packet, client, mapped, hops, connects, writes, now);
    case Reply(packet, dest, client, now) => ReplyGood(s, packet, dest, client, now);
    case SweepSessions(now) => KeepGood(s.tables, s.history, (s: Session) => !IdleSession(s, now));
    case ClearSessions(ip) => KeepGood(s.tables, s.history, (s: Session) => s.dest.ip != ip);
    case SweepPatterns(now) =>
      GoodLater(s.tables, s.history, [PatternsSwept(now)]);
      SendsLater(s.history, PatternsSwept(now));
  }

  /**
   Over every run: whenever transport data with some index was sent over the fast path to a destination,
   that destination had before this packet answered a handshake with this sender index, or data with this
   index had gone towards it earlier for a client to which it also sent data. The gauge equals the number of sessions, and
   every session can be found by its sender index.
   */
  lemma {:induction false} EveryRunJustified(inputs: seq<Input>)
    ensures Good(Run(inputs).tables, Run(inputs).history) && SendsJustified(Run(inputs).history)
  {
    if inputs != [] {
      EveryRunJustified(inputs[..|inputs| - 1]);
      ApplyGood(Run(inputs[..|inputs| - 1]), inputs[|inputs| - 1]);
    }
  }

  // ---------- What follows for single packets ----------

  /** A cookie reply has no index to read, so the relay neither forwards nor records it. */
  lemma CookieReplyIgnored(s: State, input: Input)
    requires Placed(s.tables) && (input.ClientPacket? || input.Reply?)
    requires input.packet != [] && input.packet[0] == COOKIE_REPLY
    ensures Apply(s, input) == s
  {
    assert ExtractWireGuardIndices(input.packet) == None;
  }

  /** The history grows by a hand-over to `dest` and perhaps a send to it, and by nothing else. */
  predicate OnlyTo(before: seq<Event>, after: seq<Event>, client: Addr, dest: Addr, index: Index, now: Time) {
    || after == before
    || after == before + [Toward(client, dest, index, now)]
    || after == before + [Toward(client, dest, index, now)] + [FastSend(client, dest, index)]
  }

  lemma KnownIndexIsFast(s: State, input: Input, index: Index)
    requires Placed(s.tables) && input.ClientPacket? && input.mapped
    requires ExtractWireGuardIndices(input.packet) == Some(Transport(index)) && index in s.tables.byReceiverIndex
    ensures OnlyTo(s.history, Apply(s, input).history, input.client, s.tables.objects[s.tables.byReceiverIndex[index]].dest, index, input.now)
    ensures input.connects && input.writes ==>
              FastSend(input.client, s.tables.objects[s.tables.byReceiverIndex[index]].dest, index) in Apply(s, input).history
  {
    var dest := s.tables.objects[s.tables.byReceiverIndex[index]].dest;
    var e := Toward(input.client, dest, index, input.now);
    assert s.history + [e] + [] == s.history + [e];
  }

  /** Over every run, data for a session that is in the table goes to one justified destination and is never flooded. */
  lemma LiveSessionNeverFlooded(inputs: seq<Input>, key: (Index, Index), input: Input) returns (dest: Addr)
    requires key in Run(inputs).tables.wgSessions && input.ClientPacket? && input.mapped
    requires var t := Run(inputs).tables;
             ExtractWireGuardIndices(input.packet) == Some(Transport(t.objects[t.wgSessions[key]].sender))
    ensures var s := Run(inputs); var index := s.tables.objects[s.tables.wgSessions[key]].sender;
            && Justified(s.history, index, dest)
            && OnlyTo(s.history, Run(inputs + [input]).history, input.client, dest, index, input.now)
  {
    var s := Run(inputs);
    var index := s.tables.objects[s.tables.wgSessions[key]].sender;
    EveryRunJustified(inputs);
    OneMore(inputs, input);
    dest := s.tables.objects[s.tables.byReceiverIndex[index]].dest;
    KnownIndexIsFast(s, input, index);
  }

  /** After a destination's handshake response, data with its sender index goes to that destination. */
  lemma ResponseDirectsData(s: State, response: seq<Byte>, dest: Addr, peer: Addr, receiver: Index, sender: Index, now: Time,
                            input: Input)
    requires Placed(s.tables) && ExtractWireGuardIndices(response) == Some(Response(receiver, sender))
    requires input.ClientPacket? && input.mapped && input.connects && input.writes
    requires ExtractWireGuardIndices(input.packet) == Some(Transport(sender))
    ensures var u := Apply(s, Reply(response, dest, peer, now));
            Apply(u, input).history == u.history + [Toward(input.client, dest, sender, input.now)] + [FastSend(input.client, dest, sender)]
  {
  }

  /**
   The converse of the index agreement fails: sweeps and clears leave the index alone. After a response and
   a clear for its address the table is empty and the index still leads to the destination.
   */
  lemma IndexOutlivesSession(dest: Addr, client: Addr, receiver: Index, sender: Index, now: Time) returns (inputs: seq<Input>)
    requires receiver < 0x1_0000_0000 && sender < 0x1_0000_0000
    ensures var t := Run(inputs).tables;
            && t.wgSessions == map[]
            && sender in t.byReceiverIndex && t.objects[t.byReceiverIndex[sender]].dest == dest
  {
    var packet := Encode(Response(receiver, sender), [0, 0, 0, 0]);
    ExtractEncoded(Response(receiver, sender), [0, 0, 0, 0]);
    inputs := [Reply(packet, dest, client, now), ClearSessions(dest.ip)];
    OneMore([], inputs[0]);
    OneMore([inputs[0]], inputs[1]);
    assert [] + [inputs[0]] == [inputs[0]] && [inputs[0]] + [inputs[1]] == inputs;
    assert Start.tables.objects + [Session(receiver, sender, dest, now)] == [Session(receiver, sender, dest, now)];
  }

  lemma OneMore(inputs: seq<Input>, input: Input)
    ensures Run(inputs + [input]) == Apply(Run(inputs), input)
  {
    assert (inputs + [input])[..|inputs|] == inputs;
  }
}
