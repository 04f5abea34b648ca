/**
 The relay's rate limiter for hole-punch packets: per source address, a window that starts with some
 packet, lasts one second, and admits two packets. A new entry's window starts at a clock reading taken
 before the entry is locked, so the window may start earlier than its first packet.
 */
module RateLimiter {
  import opened Collections

  type Time = int

  const SECOND: Time := 1_000_000_000
  const STALE_AFTER: Time := 10 * SECOND
  const PER_WINDOW: int := 2

  datatype Window = Window(count: int, start: Time)

  // ---------- One entry ----------

  /** The entry after a packet is counted. */
  function Count(w: Window, now: Time): Window {
    if now - w.start >= SECOND then Window(1, now) else Window(w.count + 1, w.start)
  }

  predicate Admits(w: Window, now: Time) {
    Count(w, now).count <= PER_WINDOW
  }

  predicate Stale(w: Window, now: Time) {
    now - w.start > STALE_AFTER
  }

  // ---------- The table, as the workers and the sweeper change it ----------

  /** An entry; each method is one section under its lock. */
  class RateLimitEntry {
    var count: int
    var windowStart: Time

    constructor (created: Time)
      ensures Value() == Window(0, created)
    {
      count, windowStart := 0, created;
    }

    function Value(): Window
      reads this
    {
      Window(count, windowStart)
    }

    method Admit(now: Time) returns (allowed: bool)
      modifies this
      ensures Value() == Count(old(Value()), now) && allowed == Admits(old(Value()), now)
    {
      if now - windowStart >= SECOND {
        count := 0;
        windowStart := now;
      }
      count := count + 1;
      allowed := count <= 2;
    }

    method IsStale(now: Time) returns (stale: bool)
      ensures stale == Stale(Value(), now)
    {
      stale := now - windowStart > STALE_AFTER;
    }
  }

  class Limiter {
    var entries: map<string, RateLimitEntry>

    constructor ()
      ensures entries == map[]
    {
      entries := map[];
    }

    method LoadOrStore(ip: string, created: Time) returns (entry: RateLimitEntry)
      modifies this
      ensures ip in entries && entry == entries[ip]
      ensures ip in old(entries) ==> entries == old(entries)
      ensures ip !in old(entries) ==>
                entries == old(entries)[ip := entry] && fresh(entry) && entry.Value() == Window(0, created)
    {
      if ip !in entries {
        entry := new RateLimitEntry(created);
        entries := entries[ip := entry];
      }
      entry := entries[ip];
    }

    /** The whole of a worker's check, when nothing comes between its two steps. */
    method Allow(ip: string, created: Time, now: Time) returns (allowed: bool)
      modifies this, if ip in entries then {entries[ip]} else {}
      ensures ip in entries && entries.Keys == old(entries).Keys + {ip}
      ensures var w := if ip in old(entries) then old(entries[ip].Value()) else Window(0, created);
              entries[ip].Value() == Count(w, now) && allowed == Admits(w, now)
      ensures forall k | k in old(entries) :: entries[k] == old(entries)[k]
    {
      var entry := LoadOrStore(ip, created);
      allowed := entry.Admit(now);
    }

    /** The whole of a sweep, when nothing comes between a stale check and its delete. */
    method Sweep(now: Time)
      modifies this
      ensures entries == map ip | ip in old(entries) && !Stale(old(entries[ip].Value()), now) :: old(entries)[ip]
    {
      var rest := entries.Keys;
      while rest != {}
        invariant rest <= entries.Keys
        invariant entries == map ip | ip in old(entries) && (ip in rest || !Stale(old(entries[ip].Value()), now)) :: old(entries)[ip]
        decreases |rest|
      {
        var ip :| ip in rest;
        rest := rest - {ip};
        var stale := entries[ip].IsStale(now);
        if stale {
          entries := entries - {ip};
        }
      }
    }
  }

  // ---------- Removing a stale entry ----------

  /** A packet: the clock when a new entry would be stamped, and the clock under the entry's lock. */
  datatype Packet = Packet(created: Time, now: Time)

  /** The entry the packet finds, or makes. */
  function Entry(s: Option<Window>, p: Packet): Window {
    if s.Some? then s.value else Window(0, p.created)
  }

  /** The decisions on a sequence of packets, from a given entry. */
  function Decisions(s: Option<Window>, ps: seq<Packet>): seq<bool>
    decreases |ps|
  {
    if ps == [] then []
    else [Admits(Entry(s, ps[0]), ps[0].now)] + Decisions(Some(Count(Entry(s, ps[0]), ps[0].now)), ps[1..])
  }

  /** From the next packet on, every continuation gets the same decisions with and without the stale entry. */
  ghost predicate SameFuture(w: Window, p: Packet) {
    forall rest: seq<Packet> :: Decisions(None, [p] + rest) == Decisions(Some(w), [p] + rest)
  }

  lemma FirstDecision(s: Option<Window>, p: Packet, rest: seq<Packet>)
    ensures Decisions(s, [p] + rest) == [Admits(Entry(s, p), p.now)] + Decisions(Some(Count(Entry(s, p), p.now)), rest)
  {
    assert ([p] + rest)[1..] == rest;
  }

  /**
   Removing a stale entry before packet `p` is harmless exactly when the new entry's stamp equals the clock
   under the lock, or is a full second older.
   */
  lemma SweepHarmlessIff(w: Window, p: Packet)
    requires Stale(w, p.now) && p.created <= p.now
    ensures SameFuture(w, p) <==> p.created == p.now || p.now - p.created >= SECOND
  {
    if p.created == p.now || p.now - p.created >= SECOND {
      forall rest: seq<Packet>
        ensures Decisions(None, [p] + rest) == Decisions(Some(w), [p] + rest)
      {
        FirstDecision(None, p, rest);
        FirstDecision(Some(w), p, rest);
      }
    } else {
      var q, r := p, Packet(p.created + SECOND, p.created + SECOND);
      FirstDecision(None, p, [q, r]);
      FirstDecision(Some(w), p, [q, r]);
      var swept, kept := Window(1, p.created), Window(1, p.now);
      assert [q, r] == [q] + [r] && [r] == [r] + [];
      FirstDecision(Some(swept), q, [r]);
      FirstDecision(Some(kept), q, [r]);
      FirstDecision(Some(Count(swept, q.now)), r, []);
      FirstDecision(Some(Count(kept, q.now)), r, []);
      assert Admits(Count(swept, q.now), r.now) && !Admits(Count(kept, q.now), r.now);
      assert Decisions(None, [p] + [q, r])[2] != Decisions(Some(w), [p] + [q, r])[2];
    }
  }
}
