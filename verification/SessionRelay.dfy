/**
 The relay's packet handlers and sweeps as they change the session tables, proved against the functions
 of module Sessions.
 */
module SessionRelay {
  import opened Collections
  import opened Patterns
  import opened Sessions

  class Relay {
    var objects: seq<Session>
    var wgSessions: map<(Index, Index), nat>
    var byReceiverIndex: map<Index, nat>
    var patterns: map<(Addr, Addr), Pattern>
    ghost var gauge: int
    ghost var history: seq<Sessions.Event>

    constructor ()
      ensures State() == Sessions.Start
    {
      objects, wgSessions, byReceiverIndex, patterns, gauge, history := [], map[], map[], map[], 0, [];
    }

    ghost function CurrentTables(): Tables
      reads this
    {
      Tables(objects, wgSessions, byReceiverIndex, patterns, gauge)
    }

    ghost function State(): State
      reads this
    {
      Sessions.State(CurrentTables(), history)
    }

    ghost predicate Valid()
      reads this
    {
      Placed(CurrentTables())
    }

    method StoreSession(key: (Index, Index), session: Session)
      requires Valid()
      modifies this
      ensures Valid() && history == old(history)
      ensures CurrentTables() == Stored(old(CurrentTables()), key, session)
    {
      objects := objects + [session];
      if key !in wgSessions {
        gauge := gauge + 1;
      }
      wgSessions := wgSessions[key := |objects| - 1];
      byReceiverIndex := byReceiverIndex[session.sender := |objects| - 1];
    }

    method UpdateLastSeen(id: nat, now: Time)
      requires Valid() && id < |objects|
      modifies this`objects
      ensures Valid() && CurrentTables() == Refreshed(old(CurrentTables()), id, now)
    {
      objects := objects[id := objects[id].(lastSeen := now)];
    }

    method TryRebuildSession(dest: Addr, p: Pattern, now: Time)
      requires Valid()
      modifies this
      ensures Valid() && history == old(history)
      ensures CurrentTables() == Rebuilt(old(CurrentTables()), dest, p, now)
    {
      if p.clientIndex == 0 || p.destIndex == 0 || p.packetCount < 4 {
        return;
      }
      var timeDiff := p.lastFromClient - p.lastFromDest;
      if timeDiff < 0 {
        timeDiff := -timeDiff;
      }
      if timeDiff >= REBUILD_WINDOW {
        return;
      }
      var key := (p.destIndex, p.clientIndex);
      if key in wgSessions {
        var id := wgSessions[key];
        if objects[id].dest == dest {
          UpdateLastSeen(id, now);
          if p.clientIndex !in byReceiverIndex {
            byReceiverIndex := byReceiverIndex[p.clientIndex := id];
          }
          return;
        }
      }
      StoreSession(key, Session(p.destIndex, p.clientIndex, dest, now));
    }

    method TrackCommunicationPattern(client: Addr, dest: Addr, d: Data)
      requires Valid()
      modifies this
      ensures Valid() && history == old(history)
      ensures CurrentTables() == TrackedData(old(CurrentTables()), client, dest, d)
    {
      var key := (client, dest);
      if key in patterns {
        var pattern := patterns[key];
        if d.fromClient {
          pattern := pattern.(lastFromClient := d.now);
          if pattern.clientIndex == 0 {
            pattern := pattern.(clientIndex := d.index);
          }
        } else {
          pattern := pattern.(lastFromDest := d.now);
          if pattern.destIndex == 0 {
            pattern := pattern.(destIndex := d.index);
          }
        }
        pattern := pattern.(packetCount := pattern.packetCount + 1);
        patterns := patterns[key := pattern];
        TryRebuildSession(dest, pattern, d.now);
      } else {
        var pattern := Pattern(0, 0, ZERO_TIME, ZERO_TIME, 1);
        if d.fromClient {
          pattern := pattern.(clientIndex := d.index, lastFromClient := d.now);
        } else {
          pattern := pattern.(destIndex := d.index, lastFromDest := d.now);
        }
        patterns := patterns[key := pattern];
      }
    }

    /** Track and write one data packet towards a connected destination. */
    method ForwardData(client: Addr, dest: Addr, index: Index, written: bool, fast: bool, now: Time)
      requires Valid()
      modifies this
      ensures Valid() && State() == Sent(old(State()), client, dest, index, written, fast, now)
    {
      history := history + [Toward(client, dest, index, now)];
      TrackCommunicationPattern(client, dest, Data(index, true, now));
      if written {
        history := history + [if fast then FastSend(client, dest, index) else FloodSend(client, dest, index)];
      }
    }

    /** No session is known: hand the data to every destination that can be resolved and connected. */
    method ForwardToAll(hops: seq<Hop>, client: Addr, index: Index, now: Time)
      requires Valid()
      modifies this
      ensures Valid() && State() == Flooded(old(State()), hops, client, index, now)
    {
      for n := 0 to |hops|
        invariant Valid() && State() == Flooded(old(State()), hops[..n], client, index, now)
      {
        assert hops[..n + 1][..n] == hops[..n];
        match hops[n] {
          case Unresolved =>
          case Unconnected(_) =>
          case Unwritten(dest) => ForwardData(client, dest, index, false, false, now);
          case Written(dest) => ForwardData(client, dest, index, true, false, now);
        }
      }
      assert hops[..|hops|] == hops;
    }

    /** Hand a handshake message to every destination that can be resolved and connected. */
    method ForwardHandshake(hops: seq<Hop>, client: Addr)
      modifies this`history
      ensures history == old(history) + Relayed(hops, client)
    {
      for n := 0 to |hops|
        invariant history == old(history) + Relayed(hops[..n], client)
      {
        assert hops[..n + 1][..n] == hops[..n];
        if hops[n].Written? {
          history := history + [HandshakeSend(client, hops[n].dest)];
        }
      }
      assert hops[..|hops|] == hops;
    }

    method HandleWireGuardPacket(packet: seq<Byte>, client: Addr, mapped: bool, hops: seq<Hop>,
                                 connects: bool, writes: bool, now: Time)
      requires Valid()
      modifies this
      ensures Valid()
      ensures State() == AfterClientPacket(old(State()), packet, client, mapped, hops, connects, writes, now)
    {
      var message := ExtractWireGuardIndices(packet);
      if message == None || !mapped {
        return;
      }
      match message.value {
        case Initiation(_) => ForwardHandshake(hops, client);
        case Response(receiver, sender) =>
          history := history + [Answered(client, sender)];
          StoreSession((receiver, sender), Session(receiver, sender, client, now));
          ForwardHandshake(hops, client);
        case Transport(index) =>
          if index in byReceiverIndex {
            var id := byReceiverIndex[index];
            var dest := objects[id].dest;
            UpdateLastSeen(id, now);
            if !connects {
              return;
            }
            ForwardData(client, dest, index, writes, true, now);
          } else {
            ForwardToAll(hops, client, index, now);
          }
      }
    }

    method HandleReply(packet: seq<Byte>, dest: Addr, client: Addr, now: Time)
      requires Valid()
      modifies this
      ensures Valid() && State() == AfterReply(old(State()), packet, dest, client, now)
    {
      var message := ExtractWireGuardIndices(packet);
      if message.Some? && message.value.Response? {
        var receiver, sender := message.value.receiver, message.value.sender;
        history := history + [Answered(dest, sender)];
        StoreSession((sender, receiver), Session(receiver, sender, dest, now));
      } else if message.Some? && message.value.Transport? {
        history := history + [Back(dest, client, message.value.receiver, now)];
        TrackCommunicationPattern(client, dest, Data(message.value.receiver, false, now));
      }
    }

    /** One pass over the keyed table that deletes idle sessions one by one. */
    method DeleteIdle(now: Time) returns (ghost gone: set<(Index, Index)>)
      requires Valid()
      modifies this`wgSessions, this`gauge
      ensures gone <= old(wgSessions).Keys && wgSessions == old(wgSessions) - gone && gauge == old(gauge) - |gone|
      ensures forall k | k in old(wgSessions) :: k in gone <==> IdleSession(objects[old(wgSessions)[k]], now)
    {
      gone := {};
      var rest := wgSessions.Keys;
      while rest != {}
        invariant rest <= old(wgSessions).Keys && gone !! rest
        invariant forall k | k in old(wgSessions) && k !in rest :: k in gone <==> IdleSession(objects[old(wgSessions)[k]], now)
        invariant gone <= old(wgSessions).Keys && wgSessions == old(wgSessions) - gone && gauge == old(gauge) - |gone|
        decreases |rest|
      {
        var key :| key in rest;
        rest := rest - {key};
        if now - objects[wgSessions[key]].lastSeen > SESSION_IDLE {
          wgSessions := wgSessions - {key};
          gauge := gauge - 1;
          gone := gone + {key};
        }
      }
    }

    method CleanupIdleSessions(now: Time)
      requires Valid()
      modifies this`wgSessions, this`gauge
      ensures State() == Apply(old(State()), SweepSessions(now))
    {
      ghost var gone := DeleteIdle(now);
      KeepIsDrop(old(CurrentTables()), (s: Session) => !IdleSession(s, now), gone);
    }

    method DeleteSessions(keys: set<(Index, Index)>)
      modifies this`wgSessions
      ensures wgSessions == old(wgSessions) - keys
    {
      var rest := keys;
      while rest != {}
        invariant rest <= keys && wgSessions == old(wgSessions) - (keys - rest)
        decreases |rest|
      {
        var key :| key in rest;
        rest := rest - {key};
        wgSessions := wgSessions - {key};
      }
    }

    /** Collect the sessions of one address, delete them, and report their number. */
    method ClearSessionsForIP(ip: string)
      requires Valid()
      modifies this`wgSessions, this`gauge
      ensures State() == Apply(old(State()), ClearSessions(ip))
    {
      var keysToDelete := set k | k in wgSessions && objects[wgSessions[k]].dest.ip == ip;
      DeleteSessions(keysToDelete);
      gauge := gauge - |keysToDelete|;
      KeepIsDrop(old(CurrentTables()), (s: Session) => s.dest.ip != ip, keysToDelete);
    }

    method CleanupIdleCommunicationPatterns(now: Time)
      requires Valid()
      modifies this`patterns, this`history
      ensures State() == Apply(old(State()), SweepPatterns(now))
    {
      var rest := patterns.Keys;
      while rest != {}
        invariant rest <= patterns.Keys && history == old(history)
        invariant patterns == map k | k in old(patterns) && (k in rest || !IdlePattern(old(patterns)[k], now)) :: old(patterns)[k]
        decreases |rest|
      {
        var key :| key in rest;
        rest := rest - {key};
        var lastActivity := patterns[key].lastFromClient;
        if patterns[key].lastFromDest > lastActivity {
          lastActivity := patterns[key].lastFromDest;
        }
        if now - lastActivity > PATTERN_IDLE {
          patterns := patterns - {key};
        }
      }
      history := history + [PatternsSwept(now)];
    }
  }

  /** Keeping the sessions that satisfy `keep` is dropping the keys of the others. */
  lemma KeepIsDrop(t: Tables, keep: Session -> bool, gone: set<(Index, Index)>)
    requires Placed(t) && gone <= t.wgSessions.Keys
    requires forall k | k in t.wgSessions :: k in gone <==> !keep(t.objects[t.wgSessions[k]])
    ensures KeepSessions(t, keep) == t.(wgSessions := t.wgSessions - gone, gauge := t.gauge - |gone|)
  {
    DropSize(t.wgSessions, gone);
    assert KeepSessions(t, keep).wgSessions == t.wgSessions - gone;
  }
}
