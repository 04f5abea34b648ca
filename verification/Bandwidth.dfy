/**
 Bandwidth accounting: each sample reports, per peer, the bytes counted since the previous sample, and the
 report is sent in batches. Quantities are whole bytes.
 */
module Bandwidth {
  import opened Arithmetic

  type Time = int

  datatype Peer = Peer(publicKey: string, received: nat, transmitted: nat)

  datatype Reading = Reading(received: nat, transmitted: nat, at: Time)

  datatype Usage = Usage(publicKey: string, bytesIn: nat, bytesOut: nat)

  type Readings = map<string, Reading>

  /** Bytes counted since `last`; a counter that went down was reset, and its whole value is new. */
  function Delta(current: nat, last: nat): nat {
    if current < last then current else current - last
  }

  function ReadingOf(p: Peer, now: Time): Reading {
    Reading(p.received, p.transmitted, now)
  }

  /** What is reported for one peer, given the readings so far. */
  function UsageOf(m: Readings, p: Peer, now: Time): Usage {
    if p.publicKey in m && now > m[p.publicKey].at
    then Usage(p.publicKey, Delta(p.received, m[p.publicKey].received), Delta(p.transmitted, m[p.publicKey].transmitted))
    else Usage(p.publicKey, 0, 0)
  }

  function Updated(m: Readings, peers: seq<Peer>, now: Time): Readings {
    if peers == [] then m
    else Updated(m, peers[..|peers| - 1], now)[peers[|peers| - 1].publicKey := ReadingOf(peers[|peers| - 1], now)]
  }

  function Report(m: Readings, peers: seq<Peer>, now: Time): seq<Usage> {
    if peers == [] then []
    else
      var n := |peers| - 1;
      Report(m, peers[..n], now) + [UsageOf(Updated(m, peers[..n], now), peers[n], now)]
  }

  function KeysOf(peers: seq<Peer>): set<string> {
    set i | 0 <= i < |peers| :: peers[i].publicKey
  }

  /** The readings once those of absent peers are dropped. */
  function After(m: Readings, peers: seq<Peer>, now: Time): Readings {
    var u := Updated(m, peers, now);
    map k | k in u && k in KeysOf(peers) :: u[k]
  }

  class Meter {
    var lastReadings: Readings

    constructor ()
      ensures lastReadings == map[]
    {
      lastReadings := map[];
    }

    method CalculatePeerBandwidth(peers: seq<Peer>, now: Time) returns (report: seq<Usage>)
      modifies this
      ensures report == Report(old(lastReadings), peers, now)
      ensures lastReadings == After(old(lastReadings), peers, now)
    {
      report := [];
      var currentPeerKeys := {};
      for i := 0 to |peers|
        invariant report == Report(old(lastReadings), peers[..i], now)
        invariant lastReadings == Updated(old(lastReadings), peers[..i], now)
        invariant currentPeerKeys == KeysOf(peers[..i])
      {
        assert peers[..i + 1][..i] == peers[..i];
        var peer := peers[i];
        currentPeerKeys := currentPeerKeys + {peer.publicKey};
        var bytesIn, bytesOut := 0, 0;
        if peer.publicKey in lastReadings {
          var last := lastReadings[peer.publicKey];
          if now - last.at > 0 {
            bytesIn := if peer.received - last.received < 0 then peer.received else peer.received - last.received;
            bytesOut := if peer.transmitted - last.transmitted < 0 then peer.transmitted else peer.transmitted - last.transmitted;
          }
        }
        report := report + [Usage(peer.publicKey, bytesIn, bytesOut)];
        lastReadings := lastReadings[peer.publicKey := ReadingOf(peer, now)];
        assert KeysOf(peers[..i + 1]) == KeysOf(peers[..i]) + {peers[i].publicKey};
      }
      assert peers[..|peers|] == peers;
      Prune(currentPeerKeys);
    }

    /** Drop the readings of peers that are gone. */
    method Prune(current: set<string>)
      modifies this
      ensures lastReadings == map k | k in old(lastReadings) && k in current :: old(lastReadings)[k]
    {
      var rest := lastReadings.Keys;
      while rest != {}
        invariant rest <= lastReadings.Keys
        invariant lastReadings == map k | k in old(lastReadings) && (k in rest || k in current) :: old(lastReadings)[k]
        decreases |rest|
      {
        var k :| k in rest;
        rest := rest - {k};
        if k !in current {
          lastReadings := lastReadings - {k};
        }
      }
    }
  }

  // ---------- Batches ----------

  function Concat(batches: seq<seq<Usage>>): seq<Usage> {
    if batches == [] then [] else Concat(batches[..|batches| - 1]) + batches[|batches| - 1]
  }

  /** The batches are sent one after another; one that fails does not stop the others. */
  method SendBatches(report: seq<Usage>, batchSize: nat, accepted: nat -> bool)
    returns (batches: seq<seq<Usage>>, failures: set<nat>)
    requires batchSize > 0
    ensures Concat(batches) == report
    ensures forall i | 0 <= i < |batches| :: 0 < |batches[i]| <= batchSize
    ensures |batches| == (|report| + batchSize - 1) / batchSize
    ensures failures == set i: nat | 0 <= i < |batches| && !accepted(i)
  {
    batches, failures := [], {};
    var start := 0;
    while start < |report|
      invariant Covered(|batches|, batchSize, start) && (start > 0 ==> start - batchSize < |report|)
      invariant Concat(batches) == report[..Least(start, |report|)]
      invariant forall i | 0 <= i < |batches| :: 0 < |batches[i]| <= batchSize
      invariant failures == set i: nat | 0 <= i < |batches| && !accepted(i)
      decreases |report| - start
    {
      var end := start + batchSize;
      if end > |report| {
        end := |report|;
      }
      if !accepted(|batches|) {
        failures := failures + {|batches|};
      }
      assert (batches + [report[start..end]])[..|batches|] == batches;
      assert report[..start] + report[start..end] == report[..end];
      OneMoreBatch(|batches|, batchSize, start);
      batches := batches + [report[start..end]];
      start := start + batchSize;
    }
    assert report[..|report|] == report;
    BatchCount(|batches|, batchSize, start, |report|);
  }

  function Least(a: nat, b: nat): nat {
    if a < b then a else b
  }

  /** `n` full batches reach up to `start`. */
  predicate Covered(n: nat, batchSize: nat, start: nat) {
    n * batchSize == start
  }

  lemma OneMoreBatch(n: nat, batchSize: nat, start: nat)
    requires Covered(n, batchSize, start)
    ensures Covered(n + 1, batchSize, start + batchSize)
  {
  }

  lemma BatchCount(n: nat, batchSize: nat, start: nat, total: nat)
    requires batchSize > 0 && Covered(n, batchSize, start) && total <= start
    requires start > 0 ==> start - batchSize < total
    ensures n == (total + batchSize - 1) / batchSize
  {
    Quotient(total + batchSize - 1, batchSize, n, total + batchSize - 1 - start);
  }

  // ---------- One sample ----------

  /** The device lists each peer once. */
  predicate Unique(peers: seq<Peer>) {
    forall i, j | 0 <= i < j < |peers| :: peers[i].publicKey != peers[j].publicKey
  }

  lemma {:induction false} UpdatedAt(m: Readings, peers: seq<Peer>, now: Time, k: string)
    ensures k !in KeysOf(peers) ==> (k in Updated(m, peers, now) <==> k in m)
    ensures k !in KeysOf(peers) && k in m ==> Updated(m, peers, now)[k] == m[k]
    ensures k in KeysOf(peers) ==> k in Updated(m, peers, now)
  {
    if peers != [] {
      var n := |peers| - 1;
      UpdatedAt(m, peers[..n], now, k);
      assert forall i | 0 <= i < n :: peers[..n][i].publicKey in KeysOf(peers[..n]);
      assert KeysOf(peers) == KeysOf(peers[..n]) + {peers[n].publicKey};
    }
  }

  /** After a sample the readings are those of exactly the peers on the device. */
  lemma ReadingsAreDevicePeers(m: Readings, peers: seq<Peer>, now: Time)
    ensures After(m, peers, now).Keys == KeysOf(peers)
  {
    forall k | k in KeysOf(peers)
      ensures k in Updated(m, peers, now)
    {
      UpdatedAt(m, peers, now, k);
    }
  }

  /** Each peer's report depends on its own last reading only, and its reading is replaced. */
  lemma {:induction false} SampleOf(m: Readings, peers: seq<Peer>, now: Time, i: nat)
    requires Unique(peers) && i < |peers|
    ensures |Report(m, peers, now)| == |peers| && Report(m, peers, now)[i] == UsageOf(m, peers[i], now)
    ensures Report(m, peers, now)[i].publicKey == peers[i].publicKey
    ensures peers[i].publicKey in Updated(m, peers, now) && Updated(m, peers, now)[peers[i].publicKey] == ReadingOf(peers[i], now)
  {
    var n := |peers| - 1;
    var k := peers[i].publicKey;
    if i < n {
      SampleOf(m, peers[..n], now, i);
    } else {
      UpdatedAt(m, peers[..n], now, k);
      ReportLength(m, peers[..n], now);
    }
  }

  lemma {:induction false} ReportLength(m: Readings, peers: seq<Peer>, now: Time)
    ensures |Report(m, peers, now)| == |peers|
  {
    if peers != [] { ReportLength(m, peers[..|peers| - 1], now); }
  }

  // ---------- Conservation over a run of samples ----------

  datatype Sample = Sample(peers: seq<Peer>, now: Time)

  function Run(m: Readings, samples: seq<Sample>): Readings {
    if samples == [] then m
    else After(Run(m, samples[..|samples| - 1]), samples[|samples| - 1].peers, samples[|samples| - 1].now)
  }

  /** `pos` says where peer `k` is listed in each sample. */
  predicate Follows(samples: seq<Sample>, k: string, pos: seq<nat>) {
    && |pos| == |samples|
    && forall j | 0 <= j < |samples| ::
         Unique(samples[j].peers) && pos[j] < |samples[j].peers| && samples[j].peers[pos[j]].publicKey == k
  }

  /** The peer's counter in sample `j`, received or transmitted. */
  function CounterAt(samples: seq<Sample>, pos: seq<nat>, j: nat, inbound: bool): nat
    requires j < |samples| == |pos| && pos[j] < |samples[j].peers|
  {
    if inbound then samples[j].peers[pos[j]].received else samples[j].peers[pos[j]].transmitted
  }

  function Bytes(u: Usage, inbound: bool): nat {
    if inbound then u.bytesIn else u.bytesOut
  }

  /** All bytes reported for the peer. */
  function TotalReported(m: Readings, samples: seq<Sample>, k: string, pos: seq<nat>, inbound: bool): nat
    requires Follows(samples, k, pos)
    decreases |samples|
  {
    if samples == [] then 0
    else
      var n := |samples| - 1;
      ReportLength(Run(m, samples[..n]), samples[n].peers, samples[n].now);
      TotalReported(m, samples[..n], k, pos[..n], inbound)
      + Bytes(Report(Run(m, samples[..n]), samples[n].peers, samples[n].now)[pos[n]], inbound)
  }

  /** The readings just before each counter reset. */
  function TotalReset(samples: seq<Sample>, k: string, pos: seq<nat>, inbound: bool): nat
    requires Follows(samples, k, pos)
    decreases |samples|
  {
    if |samples| <= 1 then 0
    else
      var n := |samples| - 1;
      var last, current := CounterAt(samples, pos, n - 1, inbound), CounterAt(samples, pos, n, inbound);
      TotalReset(samples[..n], k, pos[..n], inbound) + if current < last then last else 0
  }

  /** The bytes counted between samples whose clock did not advance. */
  function TotalSkipped(samples: seq<Sample>, k: string, pos: seq<nat>, inbound: bool): nat
    requires Follows(samples, k, pos)
    decreases |samples|
  {
    if |samples| <= 1 then 0
    else
      var n := |samples| - 1;
      var last, current := CounterAt(samples, pos, n - 1, inbound), CounterAt(samples, pos, n, inbound);
      TotalSkipped(samples[..n], k, pos[..n], inbound)
      + if samples[n].now > samples[n - 1].now then 0 else Delta(current, last)
  }

  lemma ReadingKept(m: Readings, peers: seq<Peer>, now: Time, i: nat)
    requires Unique(peers) && i < |peers|
    ensures peers[i].publicKey in After(m, peers, now) && After(m, peers, now)[peers[i].publicKey] == ReadingOf(peers[i], now)
  {
    SampleOf(m, peers, now, i);
    assert peers[i].publicKey in KeysOf(peers);
  }

  /**
   For a peer present in every sample and unknown before the first, what is reported, together with what
   falls between samples at the same clock reading, is the last counter minus the first plus the reading
   before each reset. With a clock that advances nothing is skipped.
   */
  lemma {:induction false} BytesConserved(m: Readings, samples: seq<Sample>, k: string, pos: seq<nat>, inbound: bool)
    requires Follows(samples, k, pos) && k !in m && samples != []
    ensures var n := |samples| - 1;
            TotalReported(m, samples, k, pos, inbound) + TotalSkipped(samples, k, pos, inbound) ==
            CounterAt(samples, pos, n, inbound) - CounterAt(samples, pos, 0, inbound) + TotalReset(samples, k, pos, inbound)
    decreases |samples|
  {
    var n := |samples| - 1;
    if n == 0 {
      FirstReported(m, samples, k, pos, inbound);
    } else {
      BytesConserved(m, samples[..n], k, pos[..n], inbound);
      LastReported(m, samples, k, pos, inbound);
    }
  }

  /** What the last sample reports for the peer. */
  function ReportedLast(m: Readings, samples: seq<Sample>, k: string, pos: seq<nat>, inbound: bool): nat
    requires Follows(samples, k, pos) && samples != []
  {
    var n := |samples| - 1;
    ReportLength(Run(m, samples[..n]), samples[n].peers, samples[n].now);
    Bytes(Report(Run(m, samples[..n]), samples[n].peers, samples[n].now)[pos[n]], inbound)
  }

  lemma FirstReported(m: Readings, samples: seq<Sample>, k: string, pos: seq<nat>, inbound: bool)
    requires Follows(samples, k, pos) && k !in m && |samples| == 1
    ensures TotalReported(m, samples, k, pos, inbound) == 0
  {
    SampleOf(m, samples[0].peers, samples[0].now, pos[0]);
    assert samples[..0] == [] && pos[..0] == [];
  }

  lemma LastReported(m: Readings, samples: seq<Sample>, k: string, pos: seq<nat>, inbound: bool)
    requires Follows(samples, k, pos) && |samples| >= 2
    ensures var n := |samples| - 1;
            ReportedLast(m, samples, k, pos, inbound) ==
            if samples[n].now > samples[n - 1].now
            then Delta(CounterAt(samples, pos, n, inbound), CounterAt(samples, pos, n - 1, inbound)) else 0
  {
    var n := |samples| - 1;
    var before := Run(m, samples[..n]);
    SampleOf(before, samples[n].peers, samples[n].now, pos[n]);
    assert samples[..n][..n - 1] == samples[..n - 1];
    ReadingKept(Run(m, samples[..n - 1]), samples[n - 1].peers, samples[n - 1].now, pos[n - 1]);
  }

  lemma {:induction false} NothingSkipped(samples: seq<Sample>, k: string, pos: seq<nat>, inbound: bool)
    requires Follows(samples, k, pos) && forall i, j | 0 <= i < j < |samples| :: samples[i].now < samples[j].now
    ensures TotalSkipped(samples, k, pos, inbound) == 0
    decreases |samples|
  {
    if |samples| > 1 { NothingSkipped(samples[..|samples| - 1], k, pos[..|samples| - 1], inbound); }
  }
}
