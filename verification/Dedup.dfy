/**
 Suppressing repeated hole-punch notifications. A packet worker asks the endpoint cache whether an
 identical endpoint was accepted recently; the notifier stores an endpoint only after the server has
 accepted it. The cache key joins two identifiers with a colon, so different pairs may share a key.
 */
module Dedup {
  import opened Collections
  import opened EndpointCache

  function CacheKey(olmID: string, newtID: string): string {
    olmID + ":" + newtID
  }

  function KeyOf(st: EndpointState): string {
    CacheKey(st.olmID, st.newtID)
  }

  /** The worker's decision, and the notifier's store. */
  method SuppressNotification(cache: Cache, st: EndpointState, now: Time) returns (suppressed: bool)
    modifies cache
    ensures cache.entries == AfterLoad(old(cache.entries), st.olmID + ":" + st.newtID, now, cache.ttl)
    ensures suppressed <==> Suppresses(old(cache.entries), st, now, cache.ttl)
  {
    var entry := cache.Load(KeyOf(st), now);
    suppressed := entry.Some? && entry.value.state == st;
  }

  method RecordAccepted(cache: Cache, st: EndpointState, now: Time)
    modifies cache
    ensures MayStore(old(cache.entries), cache.maxEntries, st.olmID + ":" + st.newtID, Entry(st, now), cache.entries)
  {
    cache.Store(KeyOf(st), Entry(st, now));
  }

  predicate Suppresses(m: Entries, st: EndpointState, now: Time, ttl: Time) {
    var entry := Loaded(m, KeyOf(st), now, ttl);
    entry.Some? && entry.value.state == st
  }

  // ---------- Runs ----------

  /** A hole punch, a server acceptance (stamped just before it is stored), or a cache sweep. */
  datatype Event =
    | Punch(st: EndpointState, at: Time)
    | Accepted(st: EndpointState, stamp: Time, at: Time)
    | Tick(tick: Time, at: Time)

  function OpOf(e: Event): Op {
    match e
    case Punch(st, at) => Load(KeyOf(st), at)
    case Accepted(st, stamp, at) => Store(KeyOf(st), Entry(st, stamp), at)
    case Tick(tick, at) => Sweep(tick, at)
  }

  function Ops(evs: seq<Event>): seq<Op> {
    seq(|evs|, i requires 0 <= i < |evs| => OpOf(evs[i]))
  }

  /** Event `n` of the run is a hole punch whose notification is suppressed. */
  predicate Suppressed(cfg: Config, pick: Picker, evs: seq<Event>, n: nat)
    requires n < |evs|
  {
    evs[n].Punch? && Suppresses(CacheAfter(cfg, pick, Ops(evs[..n])), evs[n].st, evs[n].at, cfg.ttl)
  }

  /** The server accepted exactly this endpoint, under this stamp, earlier in the run. */
  ghost predicate AcceptedBefore(evs: seq<Event>, n: nat, st: EndpointState, stamp: Time)
    requires n <= |evs|
  {
    exists m | 0 <= m < n :: evs[m].Accepted? && evs[m].st == st && evs[m].stamp == stamp
  }

  /** Every cached entry was accepted by the server, and sits under its own key. */
  lemma {:induction false} EntriesWereAccepted(cfg: Config, pick: Picker, evs: seq<Event>, key: string)
    requires key in CacheAfter(cfg, pick, Ops(evs))
    ensures var e := CacheAfter(cfg, pick, Ops(evs))[key];
            key == KeyOf(e.state) && AcceptedBefore(evs, |evs|, e.state, e.cachedAt)
  {
    if evs != [] {
      var n := |evs| - 1;
      var e := CacheAfter(cfg, pick, Ops(evs))[key];
      assert Ops(evs)[..n] == Ops(evs[..n]);
      if evs[n].Accepted? && key == KeyOf(evs[n].st) && e == Entry(evs[n].st, evs[n].stamp) {
        assert evs[n].st == e.state && evs[n].stamp == e.cachedAt;
      } else {
        EntriesWereAccepted(cfg, pick, evs[..n], key);
        var m :| 0 <= m < n && evs[..n][m].Accepted? && evs[..n][m].st == e.state && evs[..n][m].stamp == e.cachedAt;
        assert evs[m].Accepted? && evs[m].st == e.state && evs[m].stamp == e.cachedAt;
      }
    }
  }

  /**
   A suppressed notification repeats, in all six fields, one the server accepted less than one time to
   live earlier. Two identity pairs that share a cache key never stand in for one another.
   */
  lemma SuppressionIsSafe(cfg: Config, pick: Picker, evs: seq<Event>, n: nat)
    requires n < |evs| && Suppressed(cfg, pick, evs, n)
    ensures exists m | 0 <= m < n ::
              evs[m].Accepted? && evs[m].st == evs[n].st && evs[n].at - evs[m].stamp < cfg.ttl
  {
    var key := KeyOf(evs[n].st);
    var e := CacheAfter(cfg, pick, Ops(evs[..n]))[key];
    EntriesWereAccepted(cfg, pick, evs[..n], key);
    var m :| 0 <= m < n && evs[..n][m].Accepted? && evs[..n][m].st == e.state && evs[..n][m].stamp == e.cachedAt;
    assert evs[m] == evs[..n][m];
  }

  /** The last endpoint the server accepted whose identifiers, joined by a colon, give `id`. */
  function LastAccepted(evs: seq<Event>, id: string): Option<Entry> {
    if evs == [] then None
    else
      var e := evs[|evs| - 1];
      if e.Accepted? && e.st.olmID + ":" + e.st.newtID == id then Some(Entry(e.st, e.stamp))
      else LastAccepted(evs[..|evs| - 1], id)
  }

  /** The joined identifiers of all accepted endpoints. */
  function AcceptedIDs(evs: seq<Event>): set<string> {
    set i | 0 <= i < |evs| && evs[i].Accepted? :: evs[i].st.olmID + ":" + evs[i].st.newtID
  }

  lemma {:induction false} LastStoredIsLastAccepted(evs: seq<Event>, id: string)
    ensures LastAccepted(evs, id) ==
            if id in LastStored(Ops(evs)) then Some(LastStored(Ops(evs))[id]) else None
    ensures id in LastStored(Ops(evs)) <==> id in AcceptedIDs(evs)
  {
    if evs != [] {
      var n := |evs| - 1;
      assert Ops(evs)[..n] == Ops(evs[..n]);
      LastStoredIsLastAccepted(evs[..n], id);
      AcceptedIDsStep(evs);
    }
  }

  lemma AcceptedIDsStep(evs: seq<Event>)
    requires evs != []
    ensures var n := |evs| - 1;
            AcceptedIDs(evs) == AcceptedIDs(evs[..n]) + if evs[n].Accepted? then {evs[n].st.olmID + ":" + evs[n].st.newtID} else {}
  {
    var n := |evs| - 1;
    forall id | id in AcceptedIDs(evs)
      ensures id in AcceptedIDs(evs[..n]) || (evs[n].Accepted? && id == evs[n].st.olmID + ":" + evs[n].st.newtID)
    {
      var i :| 0 <= i < |evs| && evs[i].Accepted? && id == evs[i].st.olmID + ":" + evs[i].st.newtID;
      if i < n { assert evs[..n][i] == evs[i]; }
    }
    forall id | id in AcceptedIDs(evs[..n])
      ensures id in AcceptedIDs(evs)
    {
      var i :| 0 <= i < n && evs[..n][i].Accepted? && id == evs[..n][i].st.olmID + ":" + evs[..n][i].st.newtID;
      assert evs[i] == evs[..n][i];
    }
  }

  lemma StoredAreAccepted(evs: seq<Event>)
    ensures LastStored(Ops(evs)).Keys == AcceptedIDs(evs)
  {
    forall id
      ensures id in LastStored(Ops(evs)) <==> id in AcceptedIDs(evs)
    {
      LastStoredIsLastAccepted(evs, id);
    }
  }

  /**
   While the accepted identifiers fit the cache, a hole punch is suppressed exactly when the last endpoint
   accepted under its joined identifiers is identical and younger than the time to live.
   */
  lemma SuppressedIff(cfg: Config, pick: Picker, evs: seq<Event>, n: nat)
    requires n < |evs| && evs[n].Punch? && Timely(Ops(evs)) && |AcceptedIDs(evs[..n])| <= Capacity(cfg)
    ensures Suppressed(cfg, pick, evs, n) <==>
            var last := LastAccepted(evs[..n], evs[n].st.olmID + ":" + evs[n].st.newtID);
            last.Some? && last.value.state == evs[n].st && evs[n].at - last.value.cachedAt < cfg.ttl
  {
    var key, at, ops := KeyOf(evs[n].st), evs[n].at, Ops(evs[..n]);
    assert forall i | 0 <= i < n :: ops[i] == Ops(evs)[i];
    assert Ops(evs)[n].at == at;
    StoredAreAccepted(evs[..n]);
    LastStoredIsLastAccepted(evs[..n], key);
    ExactWithinCapacity(cfg, pick, ops, at);
    LoadedFromFresh(CacheAfter(cfg, pick, ops), key, at, cfg.ttl);
    LoadedFromFresh(LastStored(ops), key, at, cfg.ttl);
  }

  // ---------- Identity pairs ----------

  /** The last endpoint the server accepted for one pair of client and site. */
  function LastOfPair(evs: seq<Event>, olmID: string, newtID: string): Option<Entry> {
    if evs == [] then None
    else
      var e := evs[|evs| - 1];
      if e.Accepted? && e.st.olmID == olmID && e.st.newtID == newtID then Some(Entry(e.st, e.stamp))
      else LastOfPair(evs[..|evs| - 1], olmID, newtID)
  }

  function AcceptedPairs(evs: seq<Event>): set<(string, string)> {
    set i | 0 <= i < |evs| && evs[i].Accepted? :: (evs[i].st.olmID, evs[i].st.newtID)
  }

  /** No client identifier contains a colon. */
  predicate ColonFree(evs: seq<Event>) {
    forall i | 0 <= i < |evs| && !evs[i].Tick? :: ':' !in evs[i].st.olmID
  }

  lemma JoinedDiffer(olm: string, newt: string, olm': string, newt': string)
    requires ':' !in olm && ':' !in olm' && olm + ":" + newt == olm' + ":" + newt'
    ensures olm == olm' && newt == newt'
  {
    var k := olm + ":" + newt;
    assert k[|olm|] == ':' && k[|olm'|] == ':';
    assert olm == k[..|olm|] && olm' == k[..|olm'|];
    assert newt == k[|olm| + 1..] && newt' == k[|olm'| + 1..];
  }

  lemma {:induction false} PairsByIDs(evs: seq<Event>, olmID: string, newtID: string)
    requires ColonFree(evs) && ':' !in olmID
    ensures LastAccepted(evs, olmID + ":" + newtID) == LastOfPair(evs, olmID, newtID)
  {
    if evs != [] {
      var n := |evs| - 1;
      PairsByIDs(evs[..n], olmID, newtID);
      if evs[n].Accepted? && evs[n].st.olmID + ":" + evs[n].st.newtID == olmID + ":" + newtID {
        JoinedDiffer(evs[n].st.olmID, evs[n].st.newtID, olmID, newtID);
      }
    }
  }

  /** There are no more joined identifiers than pairs. */
  lemma FewerIDs(pairs: set<(string, string)>, ids: set<string>)
    requires ids == set p | p in pairs :: p.0 + ":" + p.1
    ensures |ids| <= |pairs|
    decreases |pairs|
  {
    if pairs != {} {
      var p :| p in pairs;
      var rest := pairs - {p};
      var fewer := set q | q in rest :: q.0 + ":" + q.1;
      FewerIDs(rest, fewer);
      assert ids == fewer + {p.0 + ":" + p.1};
    }
  }

  lemma IDsOfPairs(evs: seq<Event>)
    ensures AcceptedIDs(evs) == set p | p in AcceptedPairs(evs) :: p.0 + ":" + p.1
  {
    forall id | id in AcceptedIDs(evs)
      ensures exists p :: p in AcceptedPairs(evs) && id == p.0 + ":" + p.1
    {
      var i :| 0 <= i < |evs| && evs[i].Accepted? && id == evs[i].st.olmID + ":" + evs[i].st.newtID;
      assert (evs[i].st.olmID, evs[i].st.newtID) in AcceptedPairs(evs);
    }
  }

  /**
   Without colons in client identifiers, and while the accepted pairs fit the cache, a hole punch is suppressed
   exactly when the last endpoint accepted for its own client and site is identical and fresh.
   */
  lemma SuppressedPairIff(cfg: Config, pick: Picker, evs: seq<Event>, n: nat)
    requires n < |evs| && evs[n].Punch? && Timely(Ops(evs)) && ColonFree(evs) && |AcceptedPairs(evs[..n])| <= Capacity(cfg)
    ensures Suppressed(cfg, pick, evs, n) <==>
            var last := LastOfPair(evs[..n], evs[n].st.olmID, evs[n].st.newtID);
            last.Some? && last.value.state == evs[n].st && evs[n].at - last.value.cachedAt < cfg.ttl
  {
    IDsOfPairs(evs[..n]);
    FewerIDs(AcceptedPairs(evs[..n]), AcceptedIDs(evs[..n]));
    assert ColonFree(evs[..n]);
    PairsByIDs(evs[..n], evs[n].st.olmID, evs[n].st.newtID);
    SuppressedIff(cfg, pick, evs, n);
  }

  /** Exactly when two identity pairs share a cache key: a colon moves from one identifier to the other. */
  lemma KeysCollideIff(olm: string, newt: string, olm': string, newt': string)
    requires |olm| < |olm'|
    ensures CacheKey(olm, newt) == CacheKey(olm', newt') <==>
            exists mid :: olm' == olm + ":" + mid && newt == mid + ":" + newt'
  {
    var k, k' := CacheKey(olm, newt), CacheKey(olm', newt');
    if k == k' {
      var mid := olm'[|olm| + 1..];
      assert olm' == k[..|olm'|] && olm == k'[..|olm|];
      assert olm'[..|olm|] == olm && olm'[|olm|] == k[|olm|] == ':';
      assert olm' == olm + ":" + mid;
      assert newt == k[|olm| + 1..] == mid + ":" + newt';
    }
    if mid :| olm' == olm + ":" + mid && newt == mid + ":" + newt' {
      assert k == olm + ":" + (mid + ":" + newt') == k';
    }
  }
}
