/**
 The SNI proxy's registry of active tunnels: per hostname, the client connections being piped, in the
 order they started. A handler enters its connection before piping and removes it afterwards; an update
 of the local hostnames closes and forgets every tunnel of a hostname that is no longer local.
 */
module TunnelRegistry {

  type Host = string
  type Conn = nat

  // ---------- What each critical section does ----------

  function Get(m: map<Host, seq<Conn>>, h: Host): seq<Conn> {
    if h in m then m[h] else []
  }

  function Without(s: seq<Conn>, c: Conn): seq<Conn> {
    if s == [] then []
    else if s[|s| - 1] == c then Without(s[..|s| - 1], c)
    else Without(s[..|s| - 1], c) + [s[|s| - 1]]
  }

  function Entered(m: map<Host, seq<Conn>>, h: Host, c: Conn): map<Host, seq<Conn>> {
    m[h := Get(m, h) + [c]]
  }

  function Left(m: map<Host, seq<Conn>>, h: Host, c: Conn): map<Host, seq<Conn>> {
    if h !in m then m
    else if Without(m[h], c) == [] then m - {h}
    else m[h := Without(m[h], c)]
  }

  /** The connections listed under any of the given hostnames. */
  function ListedUnder(m: map<Host, seq<Conn>>, hosts: set<Host>): set<Conn> {
    set h, c | h in hosts && h in m && c in m[h] :: c
  }

  lemma ListedUnderOne(m: map<Host, seq<Conn>>, hosts: set<Host>, h: Host)
    requires h !in hosts
    ensures ListedUnder(m, hosts + {h}) == ListedUnder(m, hosts) + ListedUnder(m - hosts, {h})
    ensures m - (hosts + {h}) == m - hosts - {h}
  {
    forall c
      ensures c in ListedUnder(m, hosts + {h}) <==> c in ListedUnder(m, hosts) || c in ListedUnder(m - hosts, {h})
    {
      if h in m && c in m[h] { assert h in m - hosts && (m - hosts)[h] == m[h]; }
    }
  }

  class Registry {
    var activeTunnels: map<Host, seq<Conn>>
    var localSNIs: set<Host>
    ghost var closed: set<Conn>

    constructor ()
      ensures activeTunnels == map[] && localSNIs == {} && closed == {}
    {
      activeTunnels, localSNIs, closed := map[], {}, {};
    }

    method Enter(h: Host, c: Conn)
      modifies this`activeTunnels
      ensures activeTunnels == Entered(old(activeTunnels), h, c)
    {
      var conns := [];
      if h in activeTunnels {
        conns := activeTunnels[h];
      }
      activeTunnels := activeTunnels[h := conns + [c]];
    }

    method Leave(h: Host, c: Conn)
      modifies this`activeTunnels
      ensures activeTunnels == Left(old(activeTunnels), h, c)
    {
      if h in activeTunnels {
        var conns := activeTunnels[h];
        var newConns := [];
        for i := 0 to |conns|
          invariant newConns == Without(conns[..i], c)
        {
          assert conns[..i + 1][..i] == conns[..i];
          if conns[i] != c {
            newConns := newConns + [conns[i]];
          }
        }
        assert conns[..|conns|] == conns;
        if |newConns| == 0 {
          activeTunnels := activeTunnels - {h};
        } else {
          activeTunnels := activeTunnels[h := newConns];
        }
      }
    }

    /** Replace the local hostnames; the result is those that were local and no longer are. */
    method ReplaceLocalSNIs(fullDomains: seq<Host>) returns (removed: set<Host>)
      modifies this`localSNIs
      ensures localSNIs == set h | h in fullDomains
      ensures removed == old(localSNIs) - localSNIs
    {
      var newSNIs := {};
      for i := 0 to |fullDomains|
        invariant newSNIs == set h | h in fullDomains[..i]
      {
        newSNIs := newSNIs + {fullDomains[i]};
      }
      assert fullDomains[..|fullDomains|] == fullDomains;
      removed := set h | h in localSNIs && h !in newSNIs;
      localSNIs := newSNIs;
    }

    /** Close and forget the tunnels of one hostname. */
    method CloseHost(h: Host)
      modifies this`activeTunnels, this`closed
      ensures activeTunnels == old(activeTunnels) - {h}
      ensures closed == old(closed) + ListedUnder(old(activeTunnels), {h})
    {
      if h in activeTunnels {
        closed := closed + set c | c in activeTunnels[h];
        activeTunnels := activeTunnels - {h};
      }
    }

    /** Close and forget the tunnels of the removed hostnames. */
    method CloseRemoved(removed: set<Host>)
      modifies this`activeTunnels, this`closed
      ensures activeTunnels == old(activeTunnels) - removed
      ensures closed == old(closed) + ListedUnder(old(activeTunnels), removed)
    {
      var rest := removed;
      ghost var done := {};
      while rest != {}
        invariant done !! rest && done + rest == removed && activeTunnels == old(activeTunnels) - done
        invariant closed == old(closed) + ListedUnder(old(activeTunnels), done)
        decreases |rest|
      {
        var h :| h in rest;
        ListedUnderOne(old(activeTunnels), done, h);
        CloseHost(h);
        rest, done := rest - {h}, done + {h};
      }
    }
  }

  // ---------- Whole runs ----------

  /**
   `log` lists all connections that ever entered, in order; `piping` gives the hostname of those whose
   handler has not left; `cut` holds those whose hostname an update removed while they were piping; `pending`
   the removed hostnames of updates that have not yet reached the registry.
   */
  datatype State = State(
    tunnels: map<Host, seq<Conn>>,
    local: set<Host>,
    log: seq<Conn>,
    piping: map<Conn, Host>,
    cut: set<Conn>,
    closed: set<Conn>,
    pending: seq<set<Host>>)

  datatype Step =
    | EnterTunnel(h: Host, c: Conn)
    | LeaveTunnel(c: Conn)
    | ReplaceLocal(domains: seq<Host>)
    | CloseTunnels(n: nat)

  const Start := State(map[], {}, [], map[], {}, {}, [])

  function Apply(s: State, step: Step): State {
    match step
    case EnterTunnel(h, c) =>
      if c in s.log then s
      else s.(tunnels := Entered(s.tunnels, h, c), log := s.log + [c], piping := s.piping[c := h])
    case LeaveTunnel(c) =>
      if c !in s.piping then s
      else s.(tunnels := Left(s.tunnels, s.piping[c], c), piping := s.piping - {c})
    case ReplaceLocal(domains) =>
      var names := set h | h in domains;
      s.(local := names, pending := s.pending + [s.local - names])
    case CloseTunnels(n) =>
      if n >= |s.pending| then s
      else
        s.(tunnels := s.tunnels - s.pending[n],
           closed := s.closed + ListedUnder(s.tunnels, s.pending[n]),
           cut := s.cut + (set c | c in s.piping && s.piping[c] in s.pending[n]),
           pending := s.pending[..n] + s.pending[n + 1..])
  }

  function Run(steps: seq<Step>): State {
    if steps == [] then Start else Apply(Run(steps[..|steps| - 1]), steps[|steps| - 1])
  }

  /** The connection is in its tunnel phase under `h` and no update has removed `h` since it entered. */
  predicate Current(s: State, h: Host, c: Conn) {
    c in s.piping && s.piping[c] == h && c !in s.cut
  }

  /** Those of `log` that are current under `h`, in the order they entered. */
  function Expected(s: State, log: seq<Conn>, h: Host): seq<Conn> {
    if log == [] then []
    else if Current(s, h, log[|log| - 1]) then Expected(s, log[..|log| - 1], h) + [log[|log| - 1]]
    else Expected(s, log[..|log| - 1], h)
  }

  /** The registry lists, per hostname and in order, exactly the current connections, and no empty list. */
  ghost predicate Exact(s: State) {
    && (forall h :: Get(s.tunnels, h) == Expected(s, s.log, h))
    && (forall h | h in s.tunnels :: s.tunnels[h] != [])
    && (forall c | c in s.piping || c in s.cut :: c in s.log)
    && s.cut <= s.closed
  }

  lemma {:induction false} ExpectedMembers(s: State, log: seq<Conn>, h: Host)
    ensures forall c :: c in Expected(s, log, h) <==> c in log && Current(s, h, c)
  {
    if log != [] {
      ExpectedMembers(s, log[..|log| - 1], h);
      assert log == log[..|log| - 1] + [log[|log| - 1]];
    }
  }

  /** The expected list depends only on which logged connections are current. */
  lemma {:induction false} SameExpected(s: State, t: State, log: seq<Conn>, h: Host)
    requires forall c | c in log :: Current(s, h, c) <==> Current(t, h, c)
    ensures Expected(s, log, h) == Expected(t, log, h)
  {
    if log != [] {
      assert forall c | c in log[..|log| - 1] :: c in log;
      SameExpected(s, t, log[..|log| - 1], h);
    }
  }

  /** Leaving takes the connection out of the expected list and leaves the rest in order. */
  lemma {:induction false} ExpectedWithout(s: State, t: State, log: seq<Conn>, h: Host, x: Conn)
    requires forall c | c in log :: Current(t, h, c) <==> Current(s, h, c) && c != x
    ensures Expected(t, log, h) == Without(Expected(s, log, h), x)
  {
    if log != [] {
      var n := |log| - 1;
      var before := Expected(s, log[..n], h);
      assert forall c | c in log[..n] :: c in log;
      ExpectedWithout(s, t, log[..n], h, x);
      assert (before + [log[n]])[..|before|] == before;
    }
  }

  lemma {:induction false} NoneExpected(s: State, log: seq<Conn>, h: Host)
    requires forall c | c in log :: !Current(s, h, c)
    ensures Expected(s, log, h) == []
  {
    if log != [] {
      assert forall c | c in log[..|log| - 1] :: c in log;
      NoneExpected(s, log[..|log| - 1], h);
    }
  }

  lemma EnterExact(s: State, h: Host, c: Conn)
    requires Exact(s) && c !in s.log
    ensures Exact(Apply(s, EnterTunnel(h, c)))
  {
    var t := Apply(s, EnterTunnel(h, c));
    assert t.log[..|t.log| - 1] == s.log;
    forall k
      ensures Get(t.tunnels, k) == Expected(t, t.log, k)
    {
      assert Get(s.tunnels, k) == Expected(s, s.log, k);
      assert Current(t, k, c) <==> k == h;
      SameExpected(s, t, s.log, k);
    }
  }

  lemma LeaveExact(s: State, c: Conn)
    requires Exact(s) && c in s.piping
    ensures Exact(Apply(s, LeaveTunnel(c)))
  {
    var t, h := Apply(s, LeaveTunnel(c)), s.piping[c];
    forall k
      ensures Get(t.tunnels, k) == Expected(t, t.log, k)
    {
      assert Get(s.tunnels, k) == Expected(s, s.log, k);
      if k == h {
        ExpectedWithout(s, t, s.log, k, c);
        assert Without([], c) == [];
      } else {
        SameExpected(s, t, s.log, k);
      }
    }
  }

  lemma CloseExact(s: State, n: nat)
    requires Exact(s) && n < |s.pending|
    ensures Exact(Apply(s, CloseTunnels(n)))
  {
    var t, removed := Apply(s, CloseTunnels(n)), s.pending[n];
    forall k
      ensures Get(t.tunnels, k) == Expected(t, t.log, k)
    {
      assert Get(s.tunnels, k) == Expected(s, s.log, k);
      if k in removed {
        NoneExpected(t, s.log, k);
      } else {
        SameExpected(s, t, s.log, k);
      }
    }
    forall c | c in t.cut
      ensures c in t.log && c in t.closed
    {
      if c !in s.cut { CurrentIsListed(s, s.piping[c], c); }
    }
  }

  lemma CurrentIsListed(s: State, h: Host, c: Conn)
    requires Exact(s)
    ensures h in s.tunnels && c in s.tunnels[h] <==> Current(s, h, c)
  {
    assert Get(s.tunnels, h) == Expected(s, s.log, h);
    ExpectedMembers(s, s.log, h);
  }

  lemma ReplaceExact(s: State, domains: seq<Host>)
    requires Exact(s)
    ensures Exact(Apply(s, ReplaceLocal(domains)))
  {
    var t := Apply(s, ReplaceLocal(domains));
    forall k
      ensures Get(t.tunnels, k) == Expected(t, t.log, k)
    {
      assert Get(s.tunnels, k) == Expected(s, s.log, k);
      SameExpected(s, t, s.log, k);
    }
  }

  /** The registry is exact after every step of every run. */
  lemma {:induction false} EveryRunExact(steps: seq<Step>)
    ensures Exact(Run(steps))
  {
    if steps != [] {
      var s, step := Run(steps[..|steps| - 1]), steps[|steps| - 1];
      EveryRunExact(steps[..|steps| - 1]);
      match step
      case EnterTunnel(h, c) => if c !in s.log { EnterExact(s, h, c); }
      case LeaveTunnel(c) => if c in s.piping { LeaveExact(s, c); }
      case ReplaceLocal(domains) => ReplaceExact(s, domains);
      case CloseTunnels(n) => if n < |s.pending| { CloseExact(s, n); }
    }
  }

  /**
   Over every run, a connection is listed under `h` exactly while its handler is in its tunnel phase for `h`
   and no update has removed `h` since; every connection an update removed has been closed; and once every
   handler has left, nothing is listed.
   */
  lemma ListedIff(steps: seq<Step>, h: Host, c: Conn)
    ensures var s := Run(steps);
            && (h in s.tunnels && c in s.tunnels[h] <==> Current(s, h, c))
            && (c in s.cut ==> c in s.closed)
            && (s.piping == map[] ==> s.tunnels == map[])
  {
    var s := Run(steps);
    EveryRunExact(steps);
    CurrentIsListed(s, h, c);
    if s.piping == map[] {
      forall k
        ensures k !in s.tunnels
      {
        assert Get(s.tunnels, k) == Expected(s, s.log, k);
        NoneExpected(s, s.log, k);
      }
    }
  }

  // ---------- Updates ----------

  /** The hostnames of the last update. */
  function Locals(steps: seq<Step>): set<Host> {
    if steps == [] then {}
    else
      var step := steps[|steps| - 1];
      if step.ReplaceLocal? then set h | h in step.domains else Locals(steps[..|steps| - 1])
  }

  lemma {:induction false} LocalIsLast(steps: seq<Step>)
    ensures Run(steps).local == Locals(steps)
  {
    if steps != [] {
      LocalIsLast(steps[..|steps| - 1]);
    }
  }

  /** Update `m` of the run removed exactly these names: they were local before it and are not in it. */
  ghost predicate RemovedBy(steps: seq<Step>, m: nat, names: set<Host>) {
    m < |steps| && steps[m].ReplaceLocal? && forall h :: h in names <==> h in Locals(steps[..m]) && h !in steps[m].domains
  }

  /** Over every run, names that wait to be closed are those that some update removed. */
  lemma {:induction false} PendingWasRemoved(steps: seq<Step>, n: nat) returns (m: nat)
    requires n < |Run(steps).pending|
    ensures RemovedBy(steps, m, Run(steps).pending[n])
  {
    var last := |steps| - 1;
    var before, step := Run(steps[..last]), steps[last];
    if step.ReplaceLocal? && n == |before.pending| {
      LocalIsLast(steps[..last]);
      m := last;
    } else {
      var k := if step.CloseTunnels? && step.n < |before.pending| && n >= step.n then n + 1 else n;
      m := PendingWasRemoved(steps[..last], k);
      assert steps[..last][..m] == steps[..m] && steps[..last][m] == steps[m];
    }
  }

  /**
   Over every run, an update that is carried through at once closes exactly the connections piping under a name that
   was local before and is not in the update, and forgets those names; other names keep their lists.
   */
  lemma UpdateCarriedThrough(steps: seq<Step>, domains: seq<Host>, c: Conn, h: Host)
    ensures var s := Run(steps);
            var t := Apply(Apply(s, ReplaceLocal(domains)), CloseTunnels(|s.pending|));
            var gone := h in Locals(steps) && h !in domains;
            && t.local == (set x | x in domains) && t.pending == s.pending
            && Get(t.tunnels, h) == (if gone then [] else Get(s.tunnels, h))
            && (c in s.piping && s.piping[c] == h && gone ==> c in t.closed)
            && (c in t.closed && c !in s.closed ==> c in s.piping && s.piping[c] in Locals(steps) && s.piping[c] !in domains)
  {
    var s := Run(steps);
    var r := Apply(s, ReplaceLocal(domains));
    LocalIsLast(steps);
    assert (steps + [ReplaceLocal(domains)])[..|steps|] == steps;
    assert r.pending[..|s.pending|] == s.pending && r.pending[|s.pending| + 1..] == [];
    UpdateCloses(steps + [ReplaceLocal(domains)], |s.pending|, c);
  }

  /** Over every run, an update that reaches the registry closes and forgets all its removed names' connections. */
  lemma UpdateCloses(steps: seq<Step>, n: nat, c: Conn)
    requires n < |Run(steps).pending|
    ensures var s := Run(steps); var t := Apply(s, CloseTunnels(n));
            && (forall h | h in s.pending[n] :: h !in t.tunnels)
            && (c in s.piping && s.piping[c] in s.pending[n] ==> c in t.closed)
            && (c in t.closed ==> c in s.closed || (c in s.piping && s.piping[c] in s.pending[n]))
  {
    var s := Run(steps);
    EveryRunExact(steps);
    CloseExact(s, n);
    forall h | h in s.pending[n]
      ensures h in s.tunnels && c in s.tunnels[h] <==> Current(s, h, c)
    {
      CurrentIsListed(s, h, c);
    }
  }
}
