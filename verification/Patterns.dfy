/**
 Communication patterns: per pair of client and destination, what data has been seen in either direction,
 kept so that a lost WireGuard session can be rebuilt. The record is updated field by field; here it is
 proved to be a summary of the packets tracked since the record was created.
 */
module Patterns {
  import opened Collections

  type Time = int
  type Index = nat

  const ZERO_TIME: Time := -62_135_596_800_000_000_000
  const REBUILD_WINDOW: Time := 30_000_000_000
  const REBUILD_PACKETS: nat := 4
  const PATTERN_IDLE: Time := 1_200_000_000_000

  datatype Pattern = Pattern(
    clientIndex: Index,
    destIndex: Index,
    lastFromClient: Time,
    lastFromDest: Time,
    packetCount: nat)

  /** A data packet of one client and destination, in either direction. */
  datatype Data = Data(index: Index, fromClient: bool, now: Time)

  /** The record after one more packet. */
  function Tracked(p: Option<Pattern>, d: Data): Pattern {
    match p
    case None =>
      Pattern(if d.fromClient then d.index else 0, if d.fromClient then 0 else d.index,
              if d.fromClient then d.now else ZERO_TIME, if d.fromClient then ZERO_TIME else d.now, 1)
    case Some(q) =>
      if d.fromClient then
        q.(lastFromClient := d.now, clientIndex := if q.clientIndex == 0 then d.index else q.clientIndex,
           packetCount := q.packetCount + 1)
      else
        q.(lastFromDest := d.now, destIndex := if q.destIndex == 0 then d.index else q.destIndex,
           packetCount := q.packetCount + 1)
  }

  function Abs(t: Time): Time {
    if t < 0 then -t else t
  }

  /** A session may be rebuilt from the record. */
  predicate Rebuildable(p: Pattern) {
    && p.clientIndex != 0 && p.destIndex != 0 && p.packetCount >= REBUILD_PACKETS
    && Abs(p.lastFromClient - p.lastFromDest) < REBUILD_WINDOW
  }

  function LastActivity(p: Pattern): Time {
    if p.lastFromDest > p.lastFromClient then p.lastFromDest else p.lastFromClient
  }

  predicate IdlePattern(p: Pattern, now: Time) {
    now - LastActivity(p) > PATTERN_IDLE
  }

  // ---------- Runs of one record ----------

  datatype Event = Track(d: Data) | Sweep(now: Time)

  function Clock(e: Event): Time {
    if e.Track? then e.d.now else e.now
  }

  predicate Timely(evs: seq<Event>) {
    && (forall i, j | 0 <= i < j < |evs| :: Clock(evs[i]) <= Clock(evs[j]))
    && (forall i | 0 <= i < |evs| :: Clock(evs[i]) > ZERO_TIME)
  }

  function After(p: Option<Pattern>, e: Event): Option<Pattern> {
    match e
    case Track(d) => Some(Tracked(p, d))
    case Sweep(now) => if p.Some? && IdlePattern(p.value, now) then None else p
  }

  function Run(evs: seq<Event>): Option<Pattern> {
    if evs == [] then None else After(Run(evs[..|evs| - 1]), evs[|evs| - 1])
  }

  // ---------- The summary ----------

  /** The packets since the record was created, in order; a sweep ends a life twenty idle minutes old. */
  function Life(evs: seq<Event>): seq<Data> {
    if evs == [] then []
    else
      var ds, e := Life(evs[..|evs| - 1]), evs[|evs| - 1];
      match e
      case Track(d) => ds + [d]
      case Sweep(now) => if ds != [] && now - ds[|ds| - 1].now > PATTERN_IDLE then [] else ds
  }

  /** The first non-zero index seen in one direction, or zero. */
  function FirstNonZero(ds: seq<Data>, fromClient: bool): Index {
    if ds == [] then 0
    else
      var first := FirstNonZero(ds[..|ds| - 1], fromClient);
      var d := ds[|ds| - 1];
      if first == 0 && d.fromClient == fromClient then d.index else first
  }

  /** The time of the last packet in one direction. */
  function LastIn(ds: seq<Data>, fromClient: bool): Time {
    if ds == [] then ZERO_TIME
    else if ds[|ds| - 1].fromClient == fromClient then ds[|ds| - 1].now
    else LastIn(ds[..|ds| - 1], fromClient)
  }

  function Summary(ds: seq<Data>): Pattern {
    Pattern(FirstNonZero(ds, true), FirstNonZero(ds, false), LastIn(ds, true), LastIn(ds, false), |ds|)
  }

  lemma SummaryStep(ds: seq<Data>, d: Data)
    ensures Summary(ds + [d]) == Tracked(if ds == [] then None else Some(Summary(ds)), d)
  {
    assert (ds + [d])[..|ds|] == ds;
    assert FirstNonZero([], true) == 0 == FirstNonZero([], false);
    assert LastIn([], true) == ZERO_TIME == LastIn([], false);
  }

  predicate Ordered(ds: seq<Data>) {
    && (forall i, j | 0 <= i < j < |ds| :: ds[i].now <= ds[j].now)
    && (forall i | 0 <= i < |ds| :: ds[i].now > ZERO_TIME)
  }

  /** The later of the two directions' last times is the time of the last packet. */
  lemma {:induction false} LastInBounded(ds: seq<Data>, fromClient: bool)
    requires Ordered(ds) && ds != []
    ensures LastIn(ds, fromClient) <= ds[|ds| - 1].now
  {
    var n := |ds| - 1;
    if ds[n].fromClient != fromClient && n > 0 {
      LastInBounded(ds[..n], fromClient);
    }
  }

  lemma ActivityIsLast(ds: seq<Data>)
    requires Ordered(ds) && ds != []
    ensures LastActivity(Summary(ds)) == ds[|ds| - 1].now
  {
    LastInBounded(ds, true);
    LastInBounded(ds, false);
  }

  /** Packets of a life keep the order of the run and end no later than it. */
  lemma {:induction false} LifeOrdered(evs: seq<Event>, clock: Time)
    requires Timely(evs) && (evs != [] ==> Clock(evs[|evs| - 1]) <= clock)
    ensures Ordered(Life(evs)) && forall i | 0 <= i < |Life(evs)| :: Life(evs)[i].now <= clock
  {
    if evs != [] {
      LifeOrdered(evs[..|evs| - 1], Clock(evs[|evs| - 1]));
    }
  }

  /**
   Over every run the record is the summary of its life: the two indices are the first non-zero ones seen
   in their direction, the times are those of the last packets, and the count is the number of packets.
   */
  lemma {:induction false} RecordIsSummary(evs: seq<Event>)
    requires Timely(evs)
    ensures Run(evs) == if Life(evs) == [] then None else Some(Summary(Life(evs)))
  {
    if evs != [] {
      var n := |evs| - 1;
      var ds := Life(evs[..n]);
      RecordIsSummary(evs[..n]);
      LifeOrdered(evs[..n], Clock(evs[n]));
      match evs[n]
      case Track(d) => SummaryStep(ds, d);
      case Sweep(now) => if ds != [] { ActivityIsLast(ds); }
    }
  }

  /** Once an index is known it never changes within a life. */
  lemma {:induction false} FirstNonZeroStays(ds: seq<Data>, more: seq<Data>, fromClient: bool)
    requires FirstNonZero(ds, fromClient) != 0
    ensures FirstNonZero(ds + more, fromClient) == FirstNonZero(ds, fromClient)
  {
    if more == [] {
      assert ds + more == ds;
    } else {
      var n := |more| - 1;
      assert (ds + more)[..|ds| + n] == ds + more[..n];
      FirstNonZeroStays(ds, more[..n], fromClient);
    }
  }

  /** An index is known exactly when a non-zero one was seen in its direction. */
  lemma {:induction false} FirstNonZeroIff(ds: seq<Data>, fromClient: bool)
    ensures FirstNonZero(ds, fromClient) != 0 <==>
            exists i :: 0 <= i < |ds| && ds[i].fromClient == fromClient && ds[i].index != 0
    ensures FirstNonZero(ds, fromClient) != 0 ==>
            exists i :: && 0 <= i < |ds| && ds[i].fromClient == fromClient && ds[i].index == FirstNonZero(ds, fromClient)
                        && forall j | 0 <= j < i && ds[j].fromClient == fromClient :: ds[j].index == 0
  {
    if ds != [] {
      var n := |ds| - 1;
      FirstNonZeroIff(ds[..n], fromClient);
      if FirstNonZero(ds[..n], fromClient) != 0 {
        var i :| && 0 <= i < n && ds[..n][i].fromClient == fromClient
                 && ds[..n][i].index == FirstNonZero(ds[..n], fromClient)
                 && forall j | 0 <= j < i && ds[..n][j].fromClient == fromClient :: ds[..n][j].index == 0;
        assert ds[i] == ds[..n][i];
        assert forall j | 0 <= j < i && ds[j].fromClient == fromClient :: ds[..n][j].index == 0;
      } else {
        assert forall j | 0 <= j < n && ds[j].fromClient == fromClient :: ds[..n][j].index == 0;
      }
    }
  }

  predicate SeenNonZero(ds: seq<Data>, fromClient: bool) {
    exists i :: 0 <= i < |ds| && ds[i].fromClient == fromClient && ds[i].index != 0
  }

  /**
   A session may be rebuilt exactly when the life has data with a known index in both directions, at least
   four packets, and less than thirty seconds between the last packets of the two directions.
   */
  lemma RebuildableIff(evs: seq<Event>)
    requires Timely(evs)
    ensures var p, ds := Run(evs), Life(evs);
            p.Some? && Rebuildable(p.value) <==>
            && SeenNonZero(ds, true) && SeenNonZero(ds, false) && |ds| >= 4
            && Abs(LastIn(ds, true) - LastIn(ds, false)) < REBUILD_WINDOW
  {
    RecordIsSummary(evs);
    FirstNonZeroIff(Life(evs), true);
    FirstNonZeroIff(Life(evs), false);
  }
}
