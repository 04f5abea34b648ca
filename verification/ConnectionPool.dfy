/**
 The relay's table of outbound sockets: one per pair of destination and client, at most a configured
 number of them, the least recently used of a sample evicted when the table is full, idle ones removed by
 a periodic sweep, and those of a changed peer removed on notice. `connectionCount` is kept beside the
 table so that the cap check is cheap.

 Sockets are numbers. A socket number is never reused, so comparing numbers is comparing pointers.
 */
module ConnectionPool {
  import opened Collections
  import opened ConnectionKey

  type Time = int
  type Socket = nat

  const SAMPLE_SIZE: nat := 64
  const IDLE_AFTER: Time := 300_000_000_000

  datatype Pool = Pool(
    connections: map<string, Socket>,
    lastUsed: map<Socket, Time>,
    open: set<Socket>,
    count: int,
    gauge: int)

  // ---------- What each critical section does ----------

  predicate Stored(p: Pool, key: string, target: Socket) {
    key in p.connections && p.connections[key] == target
  }

  /** Compare-and-delete: close and forget `target` only if it is still what `key` holds. */
  function Removed(p: Pool, key: string, target: Socket): Pool {
    if Stored(p, key, target)
    then p.(connections := p.connections - {key}, open := p.open - {target}, count := p.count - 1)
    else p
  }

  function Touched(p: Pool, key: string, now: Time): Pool {
    if key in p.connections then p.(lastUsed := p.lastUsed[p.connections[key] := now]) else p
  }

  function Created(p: Pool, key: string, socket: Socket, now: Time): Pool {
    p.(connections := p.connections[key := socket], lastUsed := p.lastUsed[socket := now],
       open := p.open + {socket}, count := p.count + 1, gauge := p.gauge + 1)
  }

  function Evicted(p: Pool, victim: string): Pool {
    if victim in p.connections
    then Removed(p, victim, p.connections[victim]).(gauge := p.gauge - 1)
    else p
  }

  /** Every stored socket has a last-used time. */
  predicate Timed(p: Pool) {
    forall k | k in p.connections :: p.connections[k] in p.lastUsed
  }

  /** `victim` is least recently used within a sample as large as the limit or the table. */
  ghost predicate OldestOfSample(p: Pool, sample: set<string>, victim: string)
    requires Timed(p)
  {
    && sample <= p.connections.Keys && victim in sample
    && |sample| == (if |p.connections| < SAMPLE_SIZE then |p.connections| else SAMPLE_SIZE)
    && forall k | k in sample :: p.lastUsed[p.connections[victim]] <= p.lastUsed[p.connections[k]]
  }

  ghost predicate MayEvict(p: Pool, victim: string)
    requires Timed(p)
  {
    exists sample :: OldestOfSample(p, sample, victim)
  }

  /** The serialized section of get-or-create: reuse, or make room, dial and store. */
  function Acquired(p: Pool, limit: int, key: string, now: Time, dial: Option<Socket>, victim: string): Pool {
    if key in p.connections then Touched(p, key, now)
    else
      var q := if p.count >= limit then Evicted(p, victim) else p;
      match dial
      case None => q
      case Some(socket) => Created(q, key, socket, now)
  }

  // ---------- The table as the relay changes it ----------

  class Connections {
    var connections: map<string, Socket>
    var lastUsed: map<Socket, Time>
    var connectionCount: int
    ghost var open: set<Socket>
    ghost var gauge: int
    const limit: int

    constructor (limit: int)
      requires limit > 0
      ensures State() == Pool(map[], map[], {}, 0, 0) && this.limit == limit
    {
      connections, lastUsed, connectionCount, open, gauge := map[], map[], 0, {}, 0;
      this.limit := limit;
    }

    ghost function State(): Pool
      reads this
    {
      Pool(connections, lastUsed, open, connectionCount, gauge)
    }

    method RemoveConnection(key: string, target: Socket) returns (removed: bool)
      modifies this
      ensures removed == Stored(old(State()), key, target)
      ensures State() == Removed(old(State()), key, target)
    {
      if !(key in connections && connections[key] == target) {
        return false;
      }
      connections := connections - {key};
      open := open - {target};
      connectionCount := connectionCount - 1;
      return true;
    }

    /** Look at up to the sample size of entries, in any order, and remove the one used longest ago. */
    method EvictLRUConnection() returns (ghost victim: string)
      requires Timed(State())
      modifies this
      ensures State() == Evicted(old(State()), victim)
      ensures old(connections) != map[] ==> MayEvict(old(State()), victim)
    {
      victim := [];
      if connections == map[] {
        return;
      }
      var oldest := FindOldest();
      victim := oldest;
      var removed := RemoveConnection(oldest, connections[oldest]);
      if removed {
        gauge := gauge - 1;
      }
    }

    method FindOldest() returns (oldest: string)
      requires Timed(State()) && connections != map[]
      ensures MayEvict(State(), oldest)
    {
      var rest := connections.Keys;
      oldest :| oldest in rest;
      rest := rest - {oldest};
      ghost var sample := {oldest};
      var sampled := 1;
      while sampled < SAMPLE_SIZE && rest != {}
        invariant rest + sample == connections.Keys && rest !! sample
        invariant sampled == |sample| <= SAMPLE_SIZE && oldest in sample
        invariant forall k | k in sample :: lastUsed[connections[oldest]] <= lastUsed[connections[k]]
        decreases |rest|
      {
        var key :| key in rest;
        if lastUsed[connections[key]] < lastUsed[connections[oldest]] {
          oldest := key;
        }
        rest := rest - {key};
        sample := sample + {key};
        sampled := sampled + 1;
      }
      assert |connections.Keys| == |rest| + |sample|;
      assert OldestOfSample(State(), sample, oldest);
    }

    /** `dial` is the outcome of opening a socket: a number not used before, or a failure. */
    method GetOrCreateConnection(key: string, now: Time, dial: Option<Socket>)
      returns (socket: Option<Socket>, ghost victim: string)
      requires Timed(State())
      modifies this
      ensures State() == Acquired(old(State()), limit, key, now, dial, victim)
      ensures old(connectionCount) >= limit && key !in old(connections) && old(connections) != map[] ==>
                MayEvict(old(State()), victim)
      ensures socket == if key in old(connections) then Some(old(connections)[key]) else dial
    {
      victim := [];
      if key in connections {
        lastUsed := lastUsed[connections[key] := now];
        return Some(connections[key]), victim;
      }
      if connectionCount >= limit {
        victim := EvictLRUConnection();
      }
      if dial == None {
        return None, victim;
      }
      connections := connections[key := dial.value];
      lastUsed := lastUsed[dial.value := now];
      open := open + {dial.value};
      connectionCount := connectionCount + 1;
      gauge := gauge + 1;
      return dial, victim;
    }

    predicate Idle(key: string, now: Time)
      requires key in connections && connections[key] in lastUsed
      reads this
    {
      now - lastUsed[connections[key]] > IDLE_AFTER
    }

    /**
     The idle sweep, when nothing else runs meanwhile. Each removal takes one off the count, and the end of
     the sweep takes off the same number again.
     */
    method CleanupIdleConnections(now: Time) returns (removed: nat)
      requires Timed(State())
      modifies this
      ensures connections == map k | k in old(connections) && !old(Idle(k, now)) :: old(connections)[k]
      ensures lastUsed == old(lastUsed) && removed == |old(connections)| - |connections|
      ensures connectionCount == old(connectionCount) - 2 * removed
      ensures gauge == old(gauge) - removed
    {
      removed := 0;
      var rest := connections.Keys;
      while rest != {}
        invariant rest <= connections.Keys && Timed(State())
        invariant connections == map k | k in old(connections) && (k in rest || !old(Idle(k, now))) :: old(connections)[k]
        invariant lastUsed == old(lastUsed) && gauge == old(gauge)
        invariant removed == |old(connections)| - |connections|
        invariant connectionCount == old(connectionCount) - removed
        decreases |rest|
      {
        var key :| key in rest;
        rest := rest - {key};
        if now - lastUsed[connections[key]] > IDLE_AFTER {
          DropSize(connections, {key});
          var ok := RemoveConnection(key, connections[key]);
          if ok {
            removed := removed + 1;
          }
        }
      }
      if removed > 0 {
        connectionCount := connectionCount - removed;
        gauge := gauge - removed;
      }
    }

    /** Remove exactly the connections whose key mentions `ip`. */
    method ClearConnectionsForWGIP(ip: string) returns (removed: nat)
      modifies this
      ensures connections == map k | k in old(connections) && !Mentions(k, ip) :: old(connections)[k]
      ensures lastUsed == old(lastUsed) && removed == |old(connections)| - |connections|
      ensures connectionCount == old(connectionCount) - removed
      ensures gauge == old(gauge) - removed
    {
      removed := 0;
      var rest := connections.Keys;
      while rest != {}
        invariant rest <= connections.Keys
        invariant connections == map k | k in old(connections) && (k in rest || !Mentions(k, ip)) :: old(connections)[k]
        invariant lastUsed == old(lastUsed) && gauge == old(gauge)
        invariant removed == |old(connections)| - |connections|
        invariant connectionCount == old(connectionCount) - removed
        decreases |rest|
      {
        var key :| key in rest;
        rest := rest - {key};
        var mentions := ContainsIP(key, ip);
        if mentions {
          DropSize(connections, {key});
          var ok := RemoveConnection(key, connections[key]);
          if ok {
            removed := removed + 1;
          }
        }
      }
      gauge := gauge - removed;
    }
  }

  /** On IPv4 keys, clearing a peer removes its connections and no others. */
  lemma ClearIsExact(dest: UDPAddr, remote: UDPAddr, ip: Text.IPv4, m: map<string, Socket>)
    requires dest.V4? && remote.V4? && Key(dest, remote) in m
    ensures Key(dest, remote) in (map k | k in m && !Mentions(k, Text.Dotted(ip)) :: m[k]) <==>
            ip != dest.ip && ip != remote.ip
  {
    MentionsIPv4Iff(dest, remote, ip);
  }
}
