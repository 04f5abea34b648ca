/**
 The relay's bounded cache of accepted endpoints. Entries expire after a time to live, the cache holds
 a bounded number of them, and a full cache makes room by evicting the oldest. Which of several equally
 old entries goes is left to map iteration; a run fixes it by a choice function.
 */
module EndpointCache {
  import opened Collections

  type Time = int

  datatype EndpointState = EndpointState(
    olmID: string, newtID: string, token: string, ip: string, port: int, publicKey: string)

  datatype Entry = Entry(state: EndpointState, cachedAt: Time)

  type Entries = map<string, Entry>

  predicate Fresh(e: Entry, now: Time, ttl: Time) {
    now - e.cachedAt < ttl
  }

  /** The part of the cache that has not expired. */
  function FreshPart(m: Entries, now: Time, ttl: Time): Entries {
    map k | k in m && Fresh(m[k], now, ttl) :: m[k]
  }

  predicate IsOldest(m: Entries, k: string) {
    k in m && forall j | j in m :: m[k].cachedAt <= m[j].cachedAt
  }

  // ---------- What each operation does ----------

  function Loaded(m: Entries, key: string, now: Time, ttl: Time): Option<Entry> {
    if key in m && Fresh(m[key], now, ttl) then Some(m[key]) else None
  }

  function AfterLoad(m: Entries, key: string, now: Time, ttl: Time): Entries {
    if key in m && !Fresh(m[key], now, ttl) then m - {key} else m
  }

  predicate NeedsRoom(m: Entries, maxEntries: int, key: string) {
    key !in m && |m| >= maxEntries
  }

  /** Storing `e` may turn `m` into `m'`; only the evicted key is left open, among the oldest. */
  ghost predicate MayStore(m: Entries, maxEntries: int, key: string, e: Entry, m': Entries) {
    if maxEntries <= 0 then m' == m
    else if NeedsRoom(m, maxEntries, key) then exists v :: IsOldest(m, v) && m' == (m - {v})[key := e]
    else m' == m[key := e]
  }

  class Cache {
    var entries: Entries
    const maxEntries: int
    const ttl: Time

    constructor (maxEntries: int, ttl: Time)
      ensures entries == map[] && this.maxEntries == maxEntries && this.ttl == ttl
    {
      entries := map[];
      this.maxEntries := maxEntries;
      this.ttl := ttl;
    }

    method Load(key: string, now: Time) returns (result: Option<Entry>)
      modifies this
      ensures result == Loaded(old(entries), key, now, ttl)
      ensures entries == AfterLoad(old(entries), key, now, ttl)
      ensures key in entries <==> key in old(entries) && now - old(entries)[key].cachedAt < ttl
      ensures entries - {key} == old(entries) - {key} && result == if key in entries then Some(entries[key]) else None
    {
      if key in entries {
        var entry := entries[key];
        if now - entry.cachedAt >= ttl {
          entries := entries - {key};
          return None;
        }
        return Some(entry);
      }
      return None;
    }

    /** One pass over the entries, in any order, for the oldest. */
    method FindOldest() returns (oldest: string)
      requires entries != map[]
      ensures IsOldest(entries, oldest)
    {
      var rest := entries.Keys;
      oldest :| oldest in rest;
      rest := rest - {oldest};
      while rest != {}
        invariant rest <= entries.Keys && oldest in entries
        invariant forall j | j in entries && j !in rest :: entries[oldest].cachedAt <= entries[j].cachedAt
        decreases |rest|
      {
        var k :| k in rest;
        if entries[k].cachedAt < entries[oldest].cachedAt {
          oldest := k;
        }
        rest := rest - {k};
      }
    }

    method Store(key: string, entry: Entry)
      modifies this
      ensures MayStore(old(entries), maxEntries, key, entry, entries)
    {
      if maxEntries <= 0 {
        return;
      }
      if key !in entries && |entries| >= maxEntries {
        var oldest := FindOldest();
        entries := entries - {oldest};
      }
      entries := entries[key := entry];
    }

    method DeleteExpired(now: Time)
      modifies this
      ensures entries == FreshPart(old(entries), now, ttl)
    {
      var rest := entries.Keys;
      while rest != {}
        invariant rest <= entries.Keys
        invariant forall k :: k in entries <==> k in old(entries) && (k in rest || Fresh(old(entries)[k], now, ttl))
        invariant forall k | k in entries :: entries[k] == old(entries)[k]
        decreases |rest|
      {
        var k :| k in rest;
        rest := rest - {k};
        if now - entries[k].cachedAt >= ttl {
          entries := entries - {k};
        }
      }
    }
  }

  // ---------- Runs ----------

  /** The operations, each with the clock when it takes the lock; a sweep may carry an older tick. */
  datatype Op =
    | Load(key: string, at: Time)
    | Store(key: string, entry: Entry, at: Time)
    | Sweep(tick: Time, at: Time)

  datatype Config = Config(maxEntries: int, ttl: Time)

  /** A way to choose among the oldest entries. */
  type Picker = Entries -> string

  ghost predicate PicksOldest(pick: Picker) {
    forall m: Entries | m != map[] :: IsOldest(m, pick(m))
  }

  function StoreWith(pick: Picker, m: Entries, maxEntries: int, key: string, e: Entry): Entries {
    if maxEntries <= 0 then m
    else if NeedsRoom(m, maxEntries, key) then (m - {pick(m)})[key := e]
    else m[key := e]
  }

  function AfterOp(cfg: Config, pick: Picker, m: Entries, op: Op): Entries {
    match op
    case Load(key, at) => AfterLoad(m, key, at, cfg.ttl)
    case Store(key, e, _) => StoreWith(pick, m, cfg.maxEntries, key, e)
    case Sweep(tick, _) => FreshPart(m, tick, cfg.ttl)
  }

  /** The cache after a run that starts empty. */
  function CacheAfter(cfg: Config, pick: Picker, ops: seq<Op>): Entries {
    if ops == [] then map[] else AfterOp(cfg, pick, CacheAfter(cfg, pick, ops[..|ops| - 1]), ops[|ops| - 1])
  }

  /** The results of the loads of a run, in order. */
  function LoadResults(cfg: Config, pick: Picker, ops: seq<Op>): seq<Option<Entry>> {
    if ops == [] then []
    else
      var n := |ops| - 1;
      if !ops[n].Load? then LoadResults(cfg, pick, ops[..n])
      else LoadResults(cfg, pick, ops[..n]) + [Loaded(CacheAfter(cfg, pick, ops[..n]), ops[n].key, ops[n].at, cfg.ttl)]
  }

  /** The same run without its sweeps. */
  function Unswept(ops: seq<Op>): seq<Op> {
    if ops == [] then []
    else if ops[|ops| - 1].Sweep? then Unswept(ops[..|ops| - 1])
    else Unswept(ops[..|ops| - 1]) + [ops[|ops| - 1]]
  }

  /** The clock never runs backwards, and a tick is never ahead of it. */
  predicate Timely(ops: seq<Op>) {
    && (forall i, j | 0 <= i < j < |ops| :: ops[i].at <= ops[j].at)
    && (forall i | 0 <= i < |ops| && ops[i].Sweep? :: ops[i].tick <= ops[i].at)
  }

  function Capacity(cfg: Config): nat {
    if cfg.maxEntries <= 0 then 0 else cfg.maxEntries
  }

  // ---------- Bounds ----------

  lemma SubmapSize(m: Entries, m': Entries)
    requires m'.Keys <= m.Keys
    ensures |m'| <= |m|
  {
    assert m.Keys == m'.Keys + (m.Keys - m'.Keys);
  }

  /** A store, however it breaks ties, never exceeds the capacity. */
  lemma StoreBounded(m: Entries, maxEntries: int, key: string, e: Entry, m': Entries)
    requires MayStore(m, maxEntries, key, e, m') && maxEntries > 0 && |m| <= maxEntries
    ensures |m'| <= maxEntries
  {
    if NeedsRoom(m, maxEntries, key) {
      var v :| IsOldest(m, v) && m' == (m - {v})[key := e];
      DropSize(m, {v});
      PutSize(m - {v}, key, e);
    } else {
      PutSize(m, key, e);
    }
  }

  /** A store never drops a fresh entry other than its own while an expired one remains. */
  lemma EvictionSparesFresh(m: Entries, maxEntries: int, key: string, e: Entry, m': Entries, now: Time, ttl: Time, k: string)
    requires MayStore(m, maxEntries, key, e, m')
    requires exists j :: j in m && !Fresh(m[j], now, ttl)
    requires k in m && k != key && Fresh(m[k], now, ttl)
    ensures k in m' && m'[k] == m[k]
  {
    var j :| j in m && !Fresh(m[j], now, ttl);
    if maxEntries > 0 && NeedsRoom(m, maxEntries, key) {
      var v :| IsOldest(m, v) && m' == (m - {v})[key := e];
      assert m[v].cachedAt <= m[j].cachedAt;
    }
  }

  lemma StoreWithMay(pick: Picker, m: Entries, maxEntries: int, key: string, e: Entry)
    requires PicksOldest(pick)
    ensures MayStore(m, maxEntries, key, e, StoreWith(pick, m, maxEntries, key, e))
  {
    if maxEntries > 0 && NeedsRoom(m, maxEntries, key) {
      assert m != map[];
      assert IsOldest(m, pick(m));
    }
  }

  /** The cache never holds more than its capacity, over every run. */
  lemma {:induction false} EveryRunBounded(cfg: Config, pick: Picker, ops: seq<Op>)
    requires PicksOldest(pick)
    ensures |CacheAfter(cfg, pick, ops)| <= Capacity(cfg)
  {
    if ops != [] {
      var n := |ops| - 1;
      var m := CacheAfter(cfg, pick, ops[..n]);
      EveryRunBounded(cfg, pick, ops[..n]);
      match ops[n]
      case Load(key, at) => SubmapSize(m, AfterLoad(m, key, at, cfg.ttl));
      case Store(key, e, _) =>
        StoreWithMay(pick, m, cfg.maxEntries, key, e);
        if cfg.maxEntries > 0 {
          StoreBounded(m, cfg.maxEntries, key, e, StoreWith(pick, m, cfg.maxEntries, key, e));
        }
      case Sweep(tick, _) => SubmapSize(m, FreshPart(m, tick, cfg.ttl));
    }
  }

  // ---------- Sweeps are invisible ----------

  /** Time only shrinks the fresh part. */
  lemma FreshLater(m: Entries, t: Time, u: Time, ttl: Time)
    requires t <= u
    ensures FreshPart(FreshPart(m, t, ttl), u, ttl) == FreshPart(m, u, ttl)
  {
  }

  lemma LoadKeepsFresh(m: Entries, key: string, t: Time, u: Time, ttl: Time)
    requires t <= u
    ensures FreshPart(AfterLoad(m, key, t, ttl), u, ttl) == FreshPart(m, u, ttl)
  {
  }

  /** What a load sees is determined by the fresh part. */
  lemma LoadedFromFresh(m: Entries, key: string, t: Time, ttl: Time)
    ensures Loaded(m, key, t, ttl) == if key in FreshPart(m, t, ttl) then Some(FreshPart(m, t, ttl)[key]) else None
  {
  }

  function PutFresh(f: Entries, key: string, e: Entry, t: Time, ttl: Time): Entries {
    if Fresh(e, t, ttl) then f[key := e] else f - {key}
  }

  /** Unless the cache is full of fresh entries, a store acts on the fresh part alone. */
  lemma StoreOnFresh(cfg: Config, pick: Picker, m: Entries, key: string, e: Entry, t: Time)
    requires PicksOldest(pick) && cfg.maxEntries > 0
    requires NeedsRoom(m, cfg.maxEntries, key) ==> FreshPart(m, t, cfg.ttl) != m
    ensures FreshPart(StoreWith(pick, m, cfg.maxEntries, key, e), t, cfg.ttl) ==
            PutFresh(FreshPart(m, t, cfg.ttl), key, e, t, cfg.ttl)
  {
    if NeedsRoom(m, cfg.maxEntries, key) {
      var j :| j in m && !Fresh(m[j], t, cfg.ttl);
      assert IsOldest(m, pick(m));
      assert !Fresh(m[pick(m)], t, cfg.ttl);
    }
  }

  /** A full cache of fresh entries equals any other bounded cache with the same fresh part. */
  lemma FullIsEqual(m: Entries, m': Entries, n: int, t: Time, ttl: Time)
    requires FreshPart(m, t, ttl) == m && FreshPart(m', t, ttl) == m && |m'| <= n <= |m|
    ensures m' == m
  {
    if exists k :: k in m' && k !in m {
      var k :| k in m' && k !in m;
      assert m.Keys <= m'.Keys - {k};
      assert m'.Keys == (m'.Keys - {k}) + {k};
      SubmapSize(m' - {k}, m);
      DropSize(m', {k});
    }
    assert m'.Keys == m.Keys;
  }

  lemma StoreAgrees(cfg: Config, pick: Picker, m: Entries, m': Entries, key: string, e: Entry, t: Time)
    requires PicksOldest(pick) && |m| <= Capacity(cfg) && |m'| <= Capacity(cfg)
    requires FreshPart(m, t, cfg.ttl) == FreshPart(m', t, cfg.ttl)
    ensures FreshPart(StoreWith(pick, m, cfg.maxEntries, key, e), t, cfg.ttl) ==
            FreshPart(StoreWith(pick, m', cfg.maxEntries, key, e), t, cfg.ttl)
  {
    if cfg.maxEntries > 0 {
      if NeedsRoom(m, cfg.maxEntries, key) && FreshPart(m, t, cfg.ttl) == m {
        FullIsEqual(m, m', cfg.maxEntries, t, cfg.ttl);
      } else if NeedsRoom(m', cfg.maxEntries, key) && FreshPart(m', t, cfg.ttl) == m' {
        FullIsEqual(m', m, cfg.maxEntries, t, cfg.ttl);
      } else {
        StoreOnFresh(cfg, pick, m, key, e, t);
        StoreOnFresh(cfg, pick, m', key, e, t);
      }
    }
  }

  lemma {:induction false} UnsweptAgrees(cfg: Config, pick: Picker, ops: seq<Op>, t: Time)
    requires PicksOldest(pick) && Timely(ops) && (ops != [] ==> ops[|ops| - 1].at <= t)
    ensures FreshPart(CacheAfter(cfg, pick, ops), t, cfg.ttl) == FreshPart(CacheAfter(cfg, pick, Unswept(ops)), t, cfg.ttl)
    ensures LoadResults(cfg, pick, ops) == LoadResults(cfg, pick, Unswept(ops))
  {
    if ops != [] {
      var n := |ops| - 1;
      var op, kept := ops[n], Unswept(ops[..n]);
      var m, m' := CacheAfter(cfg, pick, ops[..n]), CacheAfter(cfg, pick, kept);
      UnsweptAgrees(cfg, pick, ops[..n], op.at);
      assert (kept + [op])[..|kept|] == kept;
      FreshLater(m, op.at, t, cfg.ttl);
      FreshLater(m', op.at, t, cfg.ttl);
      match op
      case Load(key, at) =>
        LoadKeepsFresh(m, key, at, t, cfg.ttl);
        LoadKeepsFresh(m', key, at, t, cfg.ttl);
        LoadedFromFresh(m, key, at, cfg.ttl);
        LoadedFromFresh(m', key, at, cfg.ttl);
      case Store(key, e, at) =>
        EveryRunBounded(cfg, pick, ops[..n]);
        EveryRunBounded(cfg, pick, kept);
        StoreAgrees(cfg, pick, m, m', key, e, at);
        FreshLater(StoreWith(pick, m, cfg.maxEntries, key, e), at, t, cfg.ttl);
        FreshLater(StoreWith(pick, m', cfg.maxEntries, key, e), at, t, cfg.ttl);
      case Sweep(tick, at) =>
        FreshLater(m, tick, t, cfg.ttl);
    }
  }

  /** Erasing every sweep from a run leaves every load result as it was. */
  lemma SweepsInvisible(cfg: Config, pick: Picker, ops: seq<Op>)
    requires PicksOldest(pick) && Timely(ops)
    ensures LoadResults(cfg, pick, ops) == LoadResults(cfg, pick, Unswept(ops))
  {
    UnsweptAgrees(cfg, pick, ops, if ops == [] then 0 else ops[|ops| - 1].at);
  }

  // ---------- Within capacity, the cache is exact ----------

  /** The last entry stored under each key: a cache with no bound and no expiry. */
  function LastStored(ops: seq<Op>): Entries {
    if ops == [] then map[]
    else
      var n := |ops| - 1;
      if ops[n].Store? then LastStored(ops[..n])[ops[n].key := ops[n].entry] else LastStored(ops[..n])
  }

  lemma PutOnFresh(m: Entries, key: string, e: Entry, t: Time, ttl: Time)
    ensures FreshPart(m[key := e], t, ttl) == PutFresh(FreshPart(m, t, ttl), key, e, t, ttl)
  {
  }

  /** A run that stores no more keys than fit never loses a fresh entry. */
  lemma {:induction false} ExactWithinCapacity(cfg: Config, pick: Picker, ops: seq<Op>, t: Time)
    requires Timely(ops) && (ops != [] ==> ops[|ops| - 1].at <= t) && |LastStored(ops)| <= Capacity(cfg)
    ensures CacheAfter(cfg, pick, ops).Keys <= LastStored(ops).Keys
    ensures FreshPart(CacheAfter(cfg, pick, ops), t, cfg.ttl) == FreshPart(LastStored(ops), t, cfg.ttl)
  {
    if ops != [] {
      var n := |ops| - 1;
      var op, all := ops[n], LastStored(ops[..n]);
      var m := CacheAfter(cfg, pick, ops[..n]);
      SubmapSize(LastStored(ops), all);
      ExactWithinCapacity(cfg, pick, ops[..n], op.at);
      FreshLater(m, op.at, t, cfg.ttl);
      FreshLater(all, op.at, t, cfg.ttl);
      match op
      case Load(key, at) => LoadKeepsFresh(m, key, at, t, cfg.ttl);
      case Store(key, e, at) =>
        if key !in m {
          assert m.Keys <= LastStored(ops).Keys - {key};
          SubmapSize(LastStored(ops) - {key}, m);
          DropSize(LastStored(ops), {key});
        }
        PutOnFresh(m, key, e, at, cfg.ttl);
        PutOnFresh(all, key, e, at, cfg.ttl);
        FreshLater(m[key := e], at, t, cfg.ttl);
        FreshLater(all[key := e], at, t, cfg.ttl);
      case Sweep(tick, at) => FreshLater(m, tick, t, cfg.ttl);
    }
  }
}
