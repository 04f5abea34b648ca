/**
 Which networks the router blocks and which addresses it lets through.

 Networks that together admit every address of a family are blocked round by round until a gap remains.
 The rounds have a closed form: with K the least number of distinct listed prefixes matching an address
 of the family, a network is blocked exactly when fewer than K listed prefixes properly contain it, and
 an address is let through exactly when more than K listed prefixes match it, or an IPv4-mapped network does.
 */
module RouterAccess {
  import opened PrefixCover
  import opened RouterNetworks
  import opened RouterTrie

  // ---------- The closed form ----------

  /** Within width `w`, exactly the networks with fewer than `k` listed proper prefixes are blocked. */
  ghost predicate BlocksBelow(nets: Networks, blocked: set<nat>, w: nat, k: nat) {
    forall i: nat | i < |nets| && nets[i].Width() == w ::
      i in blocked <==> Depth(Listed(nets, w), nets[i].Prefix()) < k
  }

  ghost predicate OnlyFamilies(nets: Networks, blocked: set<nat>) {
    forall i | i in blocked :: i < |nets| && IsFamily(nets[i].Width())
  }

  /** The result of the fixpoint loop for one address family, without tries, rounds or list order. */
  ghost predicate BlockedExactly(nets: Networks, blocked: set<nat>, w: nat) {
    exists k: nat :: LeastMatch(Listed(nets, w), w, k) && BlocksBelow(nets, blocked, w, k)
  }

  /** What stays active after the networks of depth below `k` are blocked. */
  lemma ActiveIsAtLeast(nets: Networks, blocked: set<nat>, w: nat, k: nat)
    requires BlocksBelow(nets, blocked, w, k)
    ensures Active(nets, blocked, w) == AtLeast(Listed(nets, w), k)
  {
    var S := Listed(nets, w);
    forall p | p in AtLeast(S, k)
      ensures p in Active(nets, blocked, w)
    {
      var i :| 0 <= i < |nets| && InTrie(nets, {}, w, i) && nets[i].Prefix() == p;
      assert InTrie(nets, blocked, w, i);
    }
    forall p | p in Active(nets, blocked, w)
      ensures p in AtLeast(S, k)
    {
      var i :| 0 <= i < |nets| && InTrie(nets, blocked, w, i) && nets[i].Prefix() == p;
      assert InTrie(nets, {}, w, i);
    }
  }

  // ---------- Marking ----------

  /** Some marked prefix ends at a node that lists `i`. */
  ghost predicate MarkedIndex(lists: map<Place, seq<nat>>, w: nat, marked: seq<Bits>, i: nat) {
    exists q :: q in marked && (w, q) in lists && i in lists[(w, q)]
  }

  /** Block every index listed at the first non-empty node on each path; no path may run into a missing child. */
  method MarkRouterCIDRCover(node: RouterCIDRNode, blocked: set<nat>, ghost nodes: Nodes, ghost nets: Networks,
                             ghost start: set<nat>, ghost k: Place)
    returns (grown: set<nat>)
    requires Linked(nodes) && Indexes(nodes) == Lists(nets, start, |nets|) && NodeAt(nodes, k) == node
    requires IsFamily(k.0) && |k.1| <= k.0 && NodeCovered(Active(nets, start, k.0), k.0, k.1)
    ensures forall i :: i in grown <==>
              i in blocked || MarkedIndex(Lists(nets, start, |nets|), k.0, Marked(Active(nets, start, k.0), k.0, k.1), i)
    decreases k.0 - |k.1|
  {
    ghost var lists, S := Lists(nets, start, |nets|), Active(nets, start, k.0);
    ListedHere(nets, start, k);
    if node.networkIndexes != [] {
      grown := blocked;
      for n := 0 to |node.networkIndexes|
        invariant grown == blocked + set i | i in node.networkIndexes[..n]
      {
        grown := grown + {node.networkIndexes[n]};
      }
      assert node.networkIndexes[..|node.networkIndexes|] == node.networkIndexes;
      assert Marked(S, k.0, k.1) == [k.1];
      assert forall i :: MarkedIndex(lists, k.0, [k.1], i) <==> i in lists[k];
    } else {
      InnerNode(nets, start, k);
      ListsKeys(nets, start, |nets|, Below(k, false));
      ListsKeys(nets, start, |nets|, Below(k, true));
      grown := MarkRouterCIDRCover(node.child0, blocked, nodes, nets, start, Below(k, false));
      grown := MarkRouterCIDRCover(node.child1, grown, nodes, nets, start, Below(k, true));
    }
  }

  // ---------- One round ----------

  /** The active networks of width `w` whose prefix is shallowest. */
  ghost function Shallowest(nets: Networks, start: set<nat>, w: nat): set<nat> {
    set i: nat | i < |nets| && InTrie(nets, start, w, i) && nets[i].Prefix() in Minimal(Active(nets, start, w))
  }

  /** The indexes marked from the root are the shallowest networks. */
  lemma MarkedAreShallowest(nets: Networks, start: set<nat>, w: nat, i: nat)
    requires IsFamily(w) && NodeCovered(Active(nets, start, w), w, [])
    ensures MarkedIndex(Lists(nets, start, |nets|), w, Marked(Active(nets, start, w), w, []), i) <==>
            i in Shallowest(nets, start, w)
  {
    var S := Active(nets, start, w);
    var lists := Lists(nets, start, |nets|);
    MarkedMembers(S, w, []);
    forall q | q in S
      ensures (w, q) in lists
      ensures i in lists[(w, q)] <==> i < |nets| && InTrie(nets, start, w, i) && nets[i].Prefix() == q
    {
      ListsKeys(nets, start, |nets|, (w, q));
      ListsAt(nets, start, |nets|, (w, q), i);
    }
    if i in Shallowest(nets, start, w) {
      assert nets[i].Prefix() in Marked(S, w, []);
    }
  }

  /** Test one root and, when the family is covered, block its shallowest cover. */
  method ProbeRoot(root: RouterCIDRNode, blocked: set<nat>, ghost nodes: Nodes, ghost nets: Networks,
                   ghost start: set<nat>, ghost w: nat)
    returns (grown: set<nat>, fired: bool)
    requires Linked(nodes) && Indexes(nodes) == Lists(nets, start, |nets|)
    requires IsFamily(w) && NodeAt(nodes, (w, [])) == root
    ensures fired <==> Covers(Active(nets, start, w), w)
    ensures grown == blocked + if fired then Shallowest(nets, start, w) else {}
  {
    ActiveBounded(nets, start, w);
    RootCoveredIff(Active(nets, start, w), w);
    grown := blocked;
    fired := RouterCIDRCovered(root, nodes, nets, start, (w, []));
    if fired {
      grown := MarkRouterCIDRCover(root, blocked, nodes, nets, start, (w, []));
      forall i
        ensures i in grown <==> i in blocked || i in Shallowest(nets, start, w)
      {
        if i >= 0 { MarkedAreShallowest(nets, start, w, i); }
      }
    }
  }

  /** Every address of the family has at least `k` listed matches. */
  ghost predicate AllMatched(nets: Networks, w: nat, k: nat) {
    forall a: Bits | |a| == w :: k <= |Matching(Listed(nets, w), a)|
  }

  /** Within width `w`, `grown` blocks the shallowest active networks in addition to `start`. */
  ghost predicate GrownBy(nets: Networks, start: set<nat>, grown: set<nat>, w: nat) {
    forall i: nat | i < |nets| && nets[i].Width() == w :: i in grown <==> i in start || i in Shallowest(nets, start, w)
  }

  /** A round that fires blocks exactly one more level. */
  lemma RoundBlocksLevel(nets: Networks, start: set<nat>, grown: set<nat>, w: nat, k: nat)
    requires BlocksBelow(nets, start, w, k) && GrownBy(nets, start, grown, w)
    ensures BlocksBelow(nets, grown, w, k + 1)
  {
    var S := Listed(nets, w);
    ActiveIsAtLeast(nets, start, w, k);
    MinimalIsLevel(S, k);
    forall i: nat | i < |nets| && nets[i].Width() == w
      ensures i in grown <==> Depth(S, nets[i].Prefix()) < k + 1
    {
      assert InTrie(nets, {}, w, i) && nets[i].Prefix() in S;
      assert i !in start ==> (nets[i].Prefix() in Minimal(AtLeast(S, k)) <==> Depth(S, nets[i].Prefix()) == k);
    }
  }

  /** A round that fires blocks at least one network that was not blocked before. */
  lemma RoundProgress(nets: Networks, start: set<nat>, w: nat) returns (i: nat)
    requires Covers(Active(nets, start, w), w)
    ensures i in Shallowest(nets, start, w) && i !in start && i < |nets|
  {
    var a: Bits := seq(w, _ => false);
    var q := ShallowestMatch(Active(nets, start, w), a);
    i :| 0 <= i < |nets| && InTrie(nets, start, w, i) && nets[i].Prefix() == q;
  }

  /** The state of one family between rounds: `k` levels are blocked, and every address has `k` matches. */
  ghost predicate Level(nets: Networks, blocked: set<nat>, w: nat, k: nat) {
    BlocksBelow(nets, blocked, w, k) && AllMatched(nets, w, k)
  }

  lemma LevelUp(nets: Networks, start: set<nat>, grown: set<nat>, w: nat, k: nat)
    requires Level(nets, start, w, k) && Covers(Active(nets, start, w), w) && GrownBy(nets, start, grown, w)
    ensures Level(nets, grown, w, k + 1)
  {
    RoundBlocksLevel(nets, start, grown, w, k);
    ActiveIsAtLeast(nets, start, w, k);
    CoversAfter(Listed(nets, w), w, k);
  }

  /** When the family is not covered, the current level is the least match count. */
  lemma LevelFinal(nets: Networks, blocked: set<nat>, w: nat, k: nat)
    requires Level(nets, blocked, w, k) && !Covers(Active(nets, blocked, w), w)
    ensures BlockedExactly(nets, blocked, w)
  {
    ActiveIsAtLeast(nets, blocked, w, k);
    CoversAfter(Listed(nets, w), w, k);
    assert LeastMatch(Listed(nets, w), w, k);
  }

  // ---------- The fixpoint ----------

  /** Some number of levels of each family is blocked, and nothing else. */
  ghost predicate Peeled(nets: Networks, blocked: set<nat>) {
    && OnlyFamilies(nets, blocked)
    && (exists k: nat :: Level(nets, blocked, IPV4_BITS, k))
    && (exists k: nat :: Level(nets, blocked, IPV6_BITS, k))
  }

  /** One family's part of a round. */
  lemma FamilyRound(nets: Networks, start: set<nat>, grown: set<nat>, w: nat)
    requires exists k: nat :: Level(nets, start, w, k)
    requires if Covers(Active(nets, start, w), w) then GrownBy(nets, start, grown, w)
             else forall i: nat | i < |nets| && nets[i].Width() == w :: i in grown <==> i in start
    ensures exists k: nat :: Level(nets, grown, w, k)
  {
    var k: nat :| Level(nets, start, w, k);
    if Covers(Active(nets, start, w), w) {
      LevelUp(nets, start, grown, w, k);
    } else {
      assert Level(nets, grown, w, k);
    }
  }

  /** What one round adds for one family. */
  ghost function Fires(nets: Networks, start: set<nat>, w: nat): set<nat> {
    if Covers(Active(nets, start, w), w) then Shallowest(nets, start, w) else {}
  }

  /** Both roots, in either order, as map iteration may visit them. */
  method Round(nets: Networks, start: set<nat>) returns (blocked: set<nat>, changed: bool)
    ensures blocked == start + Fires(nets, start, IPV4_BITS) + Fires(nets, start, IPV6_BITS)
    ensures changed <==> Covers(Active(nets, start, IPV4_BITS), IPV4_BITS) || Covers(Active(nets, start, IPV6_BITS), IPV6_BITS)
  {
    var root4, root6, nodes := BuildTries(nets, start);
    var fired4, fired6;
    if * {
      blocked, fired4 := ProbeRoot(root4, start, nodes, nets, start, IPV4_BITS);
      blocked, fired6 := ProbeRoot(root6, blocked, nodes, nets, start, IPV6_BITS);
    } else {
      blocked, fired6 := ProbeRoot(root6, start, nodes, nets, start, IPV6_BITS);
      blocked, fired4 := ProbeRoot(root4, blocked, nodes, nets, start, IPV4_BITS);
    }
    changed := fired4 || fired6;
  }

  lemma FiresInFamily(nets: Networks, start: set<nat>, w: nat, i: nat)
    ensures i in Fires(nets, start, w) ==> i < |nets| && nets[i].Width() == w
  {
  }

  /** `grown` has what one round adds for width `w`, whatever the other family adds. */
  lemma FamilyPart(nets: Networks, start: set<nat>, grown: set<nat>, w: nat, v: nat)
    requires v != w && grown == start + Fires(nets, start, w) + Fires(nets, start, v)
    requires exists k: nat :: Level(nets, start, w, k)
    ensures exists k: nat :: Level(nets, grown, w, k)
  {
    forall i: nat | i < |nets| && nets[i].Width() == w
      ensures i in grown <==> i in start || i in Fires(nets, start, w)
    {
      FiresInFamily(nets, start, v, i);
    }
    FamilyRound(nets, start, grown, w);
  }

  lemma RoundPeels(nets: Networks, start: set<nat>, grown: set<nat>)
    requires Peeled(nets, start)
    requires grown == start + Fires(nets, start, IPV4_BITS) + Fires(nets, start, IPV6_BITS)
    ensures Peeled(nets, grown)
  {
    FamilyPart(nets, start, grown, IPV4_BITS, IPV6_BITS);
    FamilyPart(nets, start, grown, IPV6_BITS, IPV4_BITS);
    forall i | i in grown
      ensures i < |nets| && IsFamily(nets[i].Width())
    {
      FiresInFamily(nets, start, IPV4_BITS, i);
      FiresInFamily(nets, start, IPV6_BITS, i);
    }
  }

  /** A changing round leaves fewer networks unblocked. */
  lemma RoundShrinks(nets: Networks, start: set<nat>, grown: set<nat>)
    requires grown == start + Fires(nets, start, IPV4_BITS) + Fires(nets, start, IPV6_BITS)
    requires Covers(Active(nets, start, IPV4_BITS), IPV4_BITS) || Covers(Active(nets, start, IPV6_BITS), IPV6_BITS)
    ensures Unblocked(nets, grown) < Unblocked(nets, start)
  {
    var w := if Covers(Active(nets, start, IPV4_BITS), IPV4_BITS) then IPV4_BITS else IPV6_BITS;
    var i := RoundProgress(nets, start, w);
    assert i in Unblocked(nets, start) && i !in Unblocked(nets, grown);
  }

  ghost function Unblocked(nets: Networks, blocked: set<nat>): set<nat> {
    set i | 0 <= i < |nets| && i !in blocked
  }

  lemma NothingBlocked(nets: Networks)
    ensures Peeled(nets, {})
  {
    assert Level(nets, {}, IPV4_BITS, 0) && Level(nets, {}, IPV6_BITS, 0);
  }

  lemma PeeledFinal(nets: Networks, blocked: set<nat>, w: nat)
    requires IsFamily(w) && Peeled(nets, blocked) && !Covers(Active(nets, blocked, w), w)
    ensures BlockedExactly(nets, blocked, w)
  {
    var k: nat :| Level(nets, blocked, w, k);
    LevelFinal(nets, blocked, w, k);
  }

  /** Build, test and mark until neither family is covered. */
  method UnrestrictedRouterNetworks(nets: Networks) returns (blocked: set<nat>)
    ensures OnlyFamilies(nets, blocked)
    ensures BlockedExactly(nets, blocked, IPV4_BITS) && BlockedExactly(nets, blocked, IPV6_BITS)
  {
    blocked := {};
    NothingBlocked(nets);
    while true
      invariant Peeled(nets, blocked)
      decreases Unblocked(nets, blocked)
    {
      var grown, changed := Round(nets, blocked);
      if !changed {
        PeeledFinal(nets, blocked, IPV4_BITS);
        PeeledFinal(nets, blocked, IPV6_BITS);
        return;
      }
      RoundPeels(nets, blocked, grown);
      RoundShrinks(nets, blocked, grown);
      blocked := grown;
    }
  }

  // ---------- Consequences ----------

  /**
   The result depends only on the set of listed prefixes: two lists with the same prefixes, in any order
   and with any repetitions, block the same prefixes.
   */
  lemma OrderIndependent(nets: Networks, blocked: set<nat>, nets': Networks, blocked': set<nat>, w: nat, i: nat, j: nat)
    requires BlockedExactly(nets, blocked, w) && BlockedExactly(nets', blocked', w)
    requires Listed(nets, w) == Listed(nets', w)
    requires i < |nets| && nets[i].Width() == w && j < |nets'| && nets'[j].Width() == w
    requires nets[i].Prefix() == nets'[j].Prefix()
    ensures i in blocked <==> j in blocked'
  {
    var k: nat :| LeastMatch(Listed(nets, w), w, k) && BlocksBelow(nets, blocked, w, k);
    var k': nat :| LeastMatch(Listed(nets', w), w, k') && BlocksBelow(nets', blocked', w, k');
    LeastMatchUnique(Listed(nets, w), w, k, k');
  }

  /** The networks left over never admit a whole family. */
  lemma LeavesGap(nets: Networks, blocked: set<nat>, w: nat) returns (a: Bits)
    requires BlockedExactly(nets, blocked, w)
    ensures |a| == w
    ensures forall i: nat | i < |nets| && i !in blocked && nets[i].Width() == w :: !(nets[i].Prefix() <= a)
  {
    var S := Listed(nets, w);
    var k: nat :| LeastMatch(S, w, k) && BlocksBelow(nets, blocked, w, k);
    a :| |a| == w && |Matching(S, a)| == k;
    ActiveIsAtLeast(nets, blocked, w, k);
    SurvivingMatch(S, a, k);
    forall i: nat | i < |nets| && i !in blocked && nets[i].Width() == w
      ensures !(nets[i].Prefix() <= a)
    {
      assert InTrie(nets, blocked, w, i) && nets[i].Prefix() in Active(nets, blocked, w);
      assert nets[i].Prefix() !in Matching(Active(nets, blocked, w), a);
    }
  }

  /** All networks have their host bits cleared, as parsing and the device deliver them. */
  predicate AllCanonical(nets: Networks) {
    forall i | 0 <= i < |nets| :: Canonical(nets[i])
  }

  /** Some unblocked network contains `ip`. */
  predicate Admitted(nets: Networks, blocked: set<nat>, ip: seq<Octet>)
    requires AllCanonical(nets)
  {
    exists i: nat :: i < |nets| && i !in blocked && Contains(nets[i], ip)
  }

  /** Network `i` is an IPv4-mapped one whose prefix matches the sixteen-byte form of the IPv4 address `x`. */
  predicate MatchesMapped(nets: Networks, i: nat, x: seq<Octet>)
    requires AllCanonical(nets) && i < |nets|
  {
    IsMapped(nets[i].ip) && |x| == 4 && nets[i].Prefix() <= IPBits(MAPPED_HEAD + x)
  }

  /** An unblocked network contains `ip` through its own prefix, or as an IPv4-mapped network. */
  lemma AdmittedIsMatched(nets: Networks, blocked: set<nat>, ip: seq<Octet>)
    requires AllCanonical(nets) && IsFamily(8 * |Unmapped(ip)|)
    ensures var x := Unmapped(ip);
            Admitted(nets, blocked, ip) <==>
            || Matching(Active(nets, blocked, 8 * |x|), IPBits(x)) != {}
            || exists i: nat :: i < |nets| && i !in blocked && MatchesMapped(nets, i, x)
  {
    var x := Unmapped(ip);
    var w, S := 8 * |x|, Active(nets, blocked, 8 * |x|);
    if i: nat :| i < |nets| && i !in blocked && Contains(nets[i], ip) {
      ContainsIsPrefix(nets[i], ip);
      if IsMapped(nets[i].ip) {
        ComparedIsMapped(nets[i], x);
        assert MatchesMapped(nets, i, x);
      } else {
        assert InTrie(nets, blocked, w, i);
        assert nets[i].Prefix() in Matching(S, IPBits(x));
      }
    }
    if p :| p in Matching(S, IPBits(x)) {
      var i: nat :| i < |nets| && InTrie(nets, blocked, w, i) && nets[i].Prefix() == p;
      OwnPrefixContains(nets[i], ip);
      assert Contains(nets[i], ip);
    }
    if i: nat :| i < |nets| && i !in blocked && MatchesMapped(nets, i, x) {
      ComparedIsMapped(nets[i], x);
      ContainsIsPrefix(nets[i], ip);
      assert Contains(nets[i], ip);
    }
  }

  /** No mapped address is left after unmapping, so a matching network is not a mapped one. */
  lemma OwnPrefixContains(n: IPNet, ip: seq<Octet>)
    requires Canonical(n) && IsFamily(n.Width()) && n.Width() == 8 * |Unmapped(ip)| && n.Prefix() <= IPBits(Unmapped(ip))
    ensures Contains(n, ip)
  {
    if IsMapped(n.ip) { MappedPrefix(n, Unmapped(ip)); }
    ContainsIsPrefix(n, ip);
  }

  /** An address is matched by an unblocked network's own prefix exactly when more listed prefixes match it than the least. */
  lemma AllowedIff(nets: Networks, blocked: set<nat>, x: seq<Octet>, k: nat)
    requires IsFamily(8 * |x|) && BlockedExactly(nets, blocked, 8 * |x|)
    requires LeastMatch(Listed(nets, 8 * |x|), 8 * |x|, k)
    ensures Matching(Active(nets, blocked, 8 * |x|), IPBits(x)) != {} <==> |Matching(Listed(nets, 8 * |x|), IPBits(x))| > k
  {
    var w := 8 * |x|;
    var k': nat :| LeastMatch(Listed(nets, w), w, k') && BlocksBelow(nets, blocked, w, k');
    LeastMatchUnique(Listed(nets, w), w, k, k');
    ActiveIsAtLeast(nets, blocked, w, k);
    SurvivingMatch(Listed(nets, w), IPBits(x), k);
  }

  /** The scan over the networks that are still consulted. */
  method AnyContains(ip: seq<Octet>, nets: Networks, blocked: set<nat>) returns (found: bool)
    requires AllCanonical(nets)
    ensures found <==> Admitted(nets, blocked, ip)
  {
    for index := 0 to |nets|
      invariant forall i: nat | i < index :: i in blocked || !Contains(nets[i], ip)
    {
      if index !in blocked && Contains(nets[index], ip) {
        return true;
      }
    }
    return false;
  }

  /** More listed prefixes match `x` than match the least-matched address of its family. */
  ghost predicate MatchedMoreThanLeast(nets: Networks, x: seq<Octet>) {
    exists k: nat :: LeastMatch(Listed(nets, 8 * |x|), 8 * |x|, k) && |Matching(Listed(nets, 8 * |x|), IPBits(x))| > k
  }

  /** A listed IPv4-mapped network matches the IPv4 address, and at least the least number of listed IPv6 prefixes properly contain it. */
  ghost predicate MatchedByMapped(nets: Networks, x: seq<Octet>)
    requires AllCanonical(nets)
  {
    exists i: nat, k: nat ::
      && i < |nets| && MatchesMapped(nets, i, x)
      && LeastMatch(Listed(nets, IPV6_BITS), IPV6_BITS, k) && Depth(Listed(nets, IPV6_BITS), nets[i].Prefix()) >= k
  }

  /** The closed form for an address in its shortest form. */
  ghost predicate Passes(nets: Networks, x: seq<Octet>)
    requires AllCanonical(nets)
  {
    MatchedMoreThanLeast(nets, x) || MatchedByMapped(nets, x)
  }

  /**
   The destination check. `globalUnicast` is the address classification of the network library; an address
   that is neither 4 nor 16 bytes long stands for a missing one. Sixteen bytes that are the head of mapped
   addresses and four more are checked as those four; every other address is checked as it is.
   */
  method RouterIPAllowed(ip: seq<Octet>, globalUnicast: bool, nets: Networks) returns (allowed: bool)
    requires AllCanonical(nets)
    ensures IsFamily(8 * |ip|) && !(|ip| == 16 && ip[..12] == MAPPED_HEAD) ==> (allowed <==> globalUnicast && Passes(nets, ip))
    ensures |ip| == 16 && ip[..12] == MAPPED_HEAD ==> (allowed <==> globalUnicast && Passes(nets, ip[12..]))
    ensures !IsFamily(8 * |ip|) ==> !allowed
  {
    if !IsFamily(8 * |ip|) || !globalUnicast {
      return false;
    }
    var blocked := UnrestrictedRouterNetworks(nets);
    allowed := AnyContains(ip, nets, blocked);
    AdmittedPasses(nets, blocked, ip);
  }

  /** The four bytes behind the head of mapped addresses, or the address as it is. */
  function Short(ip: seq<Octet>): seq<Octet> {
    if |ip| == 16 && ip[..12] == MAPPED_HEAD then ip[12..] else ip
  }

  lemma ShortIsUnmapped(ip: seq<Octet>)
    ensures Unmapped(ip) == Short(ip)
  {
    if |ip| == 16 && ip[..12] == MAPPED_HEAD {
      assert ip == MAPPED_HEAD + ip[12..];
      UnmappedForms(ip, ip[12..]);
    } else {
      UnmappedForms(ip, [0, 0, 0, 0]);
    }
  }

  lemma AdmittedPasses(nets: Networks, blocked: set<nat>, ip: seq<Octet>)
    requires AllCanonical(nets) && IsFamily(8 * |ip|)
    requires BlockedExactly(nets, blocked, IPV4_BITS) && BlockedExactly(nets, blocked, IPV6_BITS)
    ensures Admitted(nets, blocked, ip) <==> Passes(nets, Short(ip))
  {
    ShortIsUnmapped(ip);
    AdmittedIsMatched(nets, blocked, ip);
    AllowedExactly(nets, blocked, Short(ip));
    MappedExactly(nets, blocked, Short(ip));
  }

  lemma AllowedExactly(nets: Networks, blocked: set<nat>, x: seq<Octet>)
    requires IsFamily(8 * |x|) && BlockedExactly(nets, blocked, 8 * |x|)
    ensures Matching(Active(nets, blocked, 8 * |x|), IPBits(x)) != {} <==> MatchedMoreThanLeast(nets, x)
  {
    var k: nat :| LeastMatch(Listed(nets, 8 * |x|), 8 * |x|, k);
    AllowedIff(nets, blocked, x, k);
    if j: nat :| LeastMatch(Listed(nets, 8 * |x|), 8 * |x|, j) && |Matching(Listed(nets, 8 * |x|), IPBits(x))| > j {
      LeastMatchUnique(Listed(nets, 8 * |x|), 8 * |x|, j, k);
    }
  }

  lemma MappedExactly(nets: Networks, blocked: set<nat>, x: seq<Octet>)
    requires AllCanonical(nets) && BlockedExactly(nets, blocked, IPV6_BITS)
    ensures (exists i: nat :: i < |nets| && i !in blocked && MatchesMapped(nets, i, x)) <==> MatchedByMapped(nets, x)
  {
    var S := Listed(nets, IPV6_BITS);
    var k: nat :| LeastMatch(S, IPV6_BITS, k) && BlocksBelow(nets, blocked, IPV6_BITS, k);
    if i: nat, j: nat :| && i < |nets| && MatchesMapped(nets, i, x)
                         && LeastMatch(S, IPV6_BITS, j) && Depth(S, nets[i].Prefix()) >= j {
      LeastMatchUnique(S, IPV6_BITS, j, k);
      assert nets[i].Width() == IPV6_BITS && i !in blocked;
    }
    if i: nat :| i < |nets| && i !in blocked && MatchesMapped(nets, i, x) {
      assert nets[i].Width() == IPV6_BITS && Depth(S, nets[i].Prefix()) >= k;
    }
  }

  /**
   Without IPv4-mapped networks the closed form has one part: an address is let through exactly when more
   listed prefixes match it than match the least-matched address of its family.
   */
  lemma NoMapped(nets: Networks, x: seq<Octet>)
    requires AllCanonical(nets) && forall i | 0 <= i < |nets| :: !IsMapped(nets[i].ip)
    ensures !MatchedByMapped(nets, x)
  {
  }

  /** The IPv4-mapped form of all IPv4 addresses. */
  const MAPPED_DEFAULT: IPNet := IPNet([0, 0, 0, 0, 0, 0, 0, 0, 0, 0, 255, 255, 0, 0, 0, 0], 96)

  /**
   The gap is one of the tries: a mapped network sits in the IPv6 trie and contains IPv4 addresses. Listed
   alone, the mapped form of all IPv4 addresses is not blocked and lets every one of them through.
   */
  lemma MappedDefaultAdmitsAll(x: seq<Octet>)
    requires |x| == 4
    ensures AllCanonical([MAPPED_DEFAULT]) && MatchedByMapped([MAPPED_DEFAULT], x)
  {
    var nets: Networks := [MAPPED_DEFAULT];
    var S, p := Listed(nets, IPV6_BITS), MAPPED_DEFAULT.Prefix();
    assert !p[0] by { assert TopBit(0, 0) == false; }
    var a := seq(IPV6_BITS, _ => true);
    assert forall q | q in S :: q == p;
    assert Matching(S, a) == {};
    assert LeastMatch(S, IPV6_BITS, 0);
    ComparedIsMapped(nets[0], x);
    assert Compared(nets[0]).Prefix() == [];
    assert MatchesMapped(nets, 0, x);
  }
}
