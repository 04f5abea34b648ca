/**
 Sets of bit-string prefixes, as in the CIDR notation of section 3.1 of RFC 4632, and what it means
 for such a set to cover every address of `w` bits.

 Nothing here mentions tries: the module states the cover test, the shallowest cover and the fixpoint
 of "cover, drop the shallowest cover, repeat" over plain sets, and proves that the fixpoint is decided
 by one number, the least number of listed prefixes that match an address.
 */
module PrefixCover {

  type Bits = seq<bool>

  // ---------- What is being computed ----------

  /** The listed prefixes that match `a`. */
  function Matching(S: set<Bits>, a: Bits): set<Bits> {
    set q | q in S && q <= a
  }

  /** The listed prefixes that are proper prefixes of `p`. */
  function Ancestors(S: set<Bits>, p: Bits): set<Bits> {
    set q | q in S && q < p
  }

  function Depth(S: set<Bits>, p: Bits): nat {
    |Ancestors(S, p)|
  }

  /** Every address of `w` bits is matched. */
  ghost predicate Covers(S: set<Bits>, w: nat) {
    forall a: Bits | |a| == w :: Matching(S, a) != {}
  }

  /** `k` is the minimum, over all addresses of `w` bits, of the number of matching prefixes. */
  ghost predicate LeastMatch(S: set<Bits>, w: nat, k: nat) {
    && (forall a: Bits | |a| == w :: k <= |Matching(S, a)|)
    && (exists a: Bits :: |a| == w && |Matching(S, a)| == k)
  }

  /** The prefixes with no listed proper prefix. */
  function Minimal(S: set<Bits>): set<Bits> {
    set p | p in S && Ancestors(S, p) == {}
  }

  /** The prefixes that have at least `k` listed proper prefixes. */
  function AtLeast(S: set<Bits>, k: nat): set<Bits> {
    set p | p in S && Depth(S, p) >= k
  }

  ghost predicate Bounded(S: set<Bits>, w: nat) {
    forall p | p in S :: |p| <= w
  }

  // ---------- Chains of prefixes ----------

  /** Two prefixes of one string are comparable. */
  lemma Comparable(p: Bits, q: Bits, a: Bits)
    requires p <= a && q <= a && |p| <= |q|
    ensures p <= q
  {
    assert q == a[..|q|];
    assert p == a[..|p|] == q[..|p|];
  }

  /** A prefix is the whole string or a proper prefix, and proper prefixes of prefixes are prefixes. */
  lemma PrefixOrder(q: Bits, p: Bits, a: Bits)
    requires q <= p <= a
    ensures q <= a
    ensures q == p || q < p
  {
    assert p == a[..|p|];
    if |q| == |p| { assert p[..|p|] == p; }
  }

  /** The longest element of a non-empty set of strings. */
  lemma Longest(T: set<Bits>) returns (p: Bits)
    requires T != {}
    ensures p in T
    ensures forall q | q in T :: |q| <= |p|
  {
    p :| p in T;
    if T != {p} {
      var r := Longest(T - {p});
      if |r| > |p| { p := r; }
    }
  }

  /** The longest prefix matching `a` has every other match among its ancestors. */
  lemma LongestMatch(S: set<Bits>, a: Bits) returns (p: Bits)
    requires Matching(S, a) != {}
    ensures p in S && p <= a
    ensures Depth(S, p) == |Matching(S, a)| - 1
  {
    p := Longest(Matching(S, a));
    forall q | q in S
      ensures q <= a <==> q < p || q == p
    {
      if q <= a { Comparable(q, p, a); PrefixOrder(q, p, a); }
      if q < p { PrefixOrder(q, p, a); }
    }
    assert Matching(S, a) == Ancestors(S, p) + {p};
  }

  /** The longest proper ancestor of `p` is exactly one level up. */
  lemma Parent(S: set<Bits>, p: Bits) returns (q: Bits)
    requires Depth(S, p) > 0
    ensures q in Ancestors(S, p)
    ensures Depth(S, q) == Depth(S, p) - 1
  {
    q := Longest(Ancestors(S, p));
    forall r | r in S
      ensures r < p <==> r < q || r == q
    {
      if r < p { Comparable(r, q, p); PrefixOrder(r, q, p); }
      if r < q { PrefixOrder(r, q, p); }
    }
    assert Ancestors(S, p) == Ancestors(S, q) + {q};
  }

  /** A prefix of depth more than `k` has an ancestor at every smaller depth. */
  lemma {:induction false} AncestorAt(S: set<Bits>, p: Bits, k: nat) returns (q: Bits)
    requires Depth(S, p) > k
    ensures q in Ancestors(S, p)
    ensures Depth(S, q) == k
    decreases |p|
  {
    q := Parent(S, p);
    if Depth(S, q) > k {
      q := AncestorAt(S, q, k);
    }
  }

  /** Depth strictly grows along the prefix order. */
  lemma DepthMonotone(S: set<Bits>, q: Bits, p: Bits)
    requires q in S && q < p
    ensures Depth(S, q) < Depth(S, p)
  {
    assert Ancestors(S, q) < Ancestors(S, p) by {
      assert q in Ancestors(S, p) && q !in Ancestors(S, q);
    }
    SmallerSet(Ancestors(S, q), Ancestors(S, p));
  }

  lemma SmallerSet<T>(A: set<T>, B: set<T>)
    requires A < B
    ensures |A| < |B|
  {
    assert B == A + (B - A);
    assert B - A != {};
  }

  // ---------- One round of peeling ----------

  /** The prefixes that survive `k` rounds and are then shallowest are those of depth exactly `k`. */
  lemma MinimalIsLevel(S: set<Bits>, k: nat)
    ensures Minimal(AtLeast(S, k)) == set p | p in S && Depth(S, p) == k
    ensures AtLeast(S, k) - Minimal(AtLeast(S, k)) == AtLeast(S, k + 1)
  {
    var T := AtLeast(S, k);
    forall p | p in T
      ensures p in Minimal(T) <==> Depth(S, p) == k
    {
      if Depth(S, p) == k {
        forall q | q in S && q < p
          ensures q !in T
        {
          DepthMonotone(S, q, p);
        }
        assert Ancestors(T, p) == {};
      } else {
        var q := AncestorAt(S, p, k);
        assert q in Ancestors(T, p);
      }
    }
  }

  /** An address still has a match after `k` rounds exactly when more than `k` listed prefixes match it. */
  lemma SurvivingMatch(S: set<Bits>, a: Bits, k: nat)
    ensures Matching(AtLeast(S, k), a) != {} <==> |Matching(S, a)| > k
  {
    if Matching(AtLeast(S, k), a) != {} {
      var p :| p in Matching(AtLeast(S, k), a);
      assert Ancestors(S, p) < Matching(S, a) by {
        assert p in Matching(S, a) && p !in Ancestors(S, p);
      }
      SmallerSet(Ancestors(S, p), Matching(S, a));
    }
    if |Matching(S, a)| > k {
      var p := LongestMatch(S, a);
      assert p in Matching(AtLeast(S, k), a);
    }
  }

  /** The cover test after `k` rounds is a statement about match counts alone. */
  lemma CoversAfter(S: set<Bits>, w: nat, k: nat)
    ensures Covers(AtLeast(S, k), w) <==> forall a: Bits | |a| == w :: |Matching(S, a)| > k
  {
    forall a: Bits | |a| == w
      ensures Matching(AtLeast(S, k), a) != {} <==> |Matching(S, a)| > k
    {
      SurvivingMatch(S, a, k);
    }
  }

  /** There is at most one least match count. */
  lemma LeastMatchUnique(S: set<Bits>, w: nat, j: nat, k: nat)
    requires LeastMatch(S, w, j) && LeastMatch(S, w, k)
    ensures j == k
  {
    var a: Bits :| |a| == w && |Matching(S, a)| == j;
    var b: Bits :| |b| == w && |Matching(S, b)| == k;
  }

  // ---------- The trie walk, over sets ----------

  /** Inserting `S` creates a node at `p`; the root always exists. */
  ghost predicate HasNode(S: set<Bits>, p: Bits) {
    p == [] || exists q :: q in S && p <= q
  }

  /** The recursive test of the trie, started at the node for `p`. */
  ghost predicate NodeCovered(S: set<Bits>, w: nat, p: Bits)
    requires |p| <= w
    decreases w - |p|
  {
    && HasNode(S, p)
    && (p in S || (|p| < w && NodeCovered(S, w, p + [false]) && NodeCovered(S, w, p + [true])))
  }

  /** The prefixes the marking recursion stops at, in the order it visits them. */
  ghost function Marked(S: set<Bits>, w: nat, p: Bits): seq<Bits>
    requires |p| <= w && NodeCovered(S, w, p)
    decreases w - |p|
  {
    if p in S then [p] else Marked(S, w, p + [false]) + Marked(S, w, p + [true])
  }

  ghost predicate NoAncestor(S: set<Bits>, p: Bits) {
    forall q | q in S :: !(q < p)
  }

  lemma ChildNoAncestor(S: set<Bits>, p: Bits, d: bool)
    requires NoAncestor(S, p) && p !in S
    ensures NoAncestor(S, p + [d])
  {
    forall q | q in S
      ensures q < p + [d] ==> q < p || q == p
    {
      if q < p + [d] {
        Comparable(q, p, p + [d]);
        PrefixOrder(q, p, p + [d]);
      }
    }
  }

  /** Every proper extension of `p` goes through exactly one of its two children. */
  lemma BelowChildren(p: Bits, a: Bits)
    ensures p <= a <==> a == p || p + [false] <= a || p + [true] <= a
  {
    if p <= a && |p| < |a| {
      var d := a[|p|];
      assert a[..|p| + 1] == p + [d];
      assert d == false || d == true;
    } else if p <= a {
      PrefixOrder(p, a, a);
    } else if p + [false] <= a {
      PrefixOrder(p, p + [false], a);
    } else if p + [true] <= a {
      PrefixOrder(p, p + [true], a);
    }
  }

  /** The trie test at `p` holds exactly when every address below `p` has a match. */
  lemma {:induction false} NodeCoveredIff(S: set<Bits>, w: nat, p: Bits)
    requires |p| <= w && Bounded(S, w) && NoAncestor(S, p)
    ensures NodeCovered(S, w, p) <==> forall a: Bits | |a| == w && p <= a :: Matching(S, a) != {}
    decreases w - |p|
  {
    if p in S {
      forall a: Bits | |a| == w && p <= a
        ensures Matching(S, a) != {}
      {
        assert p in Matching(S, a);
      }
      assert HasNode(S, p);
    } else if |p| == w {
      forall q | q in S
        ensures !(q <= p)
      {
        if q <= p { PrefixOrder(q, p, p); }
      }
      assert Matching(S, p) == {};
    } else {
      forall d: bool
        ensures NodeCovered(S, w, p + [d]) <==> forall a: Bits | |a| == w && p + [d] <= a :: Matching(S, a) != {}
      {
        ChildNoAncestor(S, p, d);
        NodeCoveredIff(S, w, p + [d]);
      }
      forall a: Bits | |a| == w
        ensures p <= a <==> p + [false] <= a || p + [true] <= a
      {
        BelowChildren(p, a);
      }
      if NodeCovered(S, w, p + [false]) {
        var q :| q in S && p + [false] <= q;
        BelowChildren(p, q);
        assert HasNode(S, p);
      }
    }
  }

  /** The test at the root decides the cover of the whole address space. */
  lemma RootCoveredIff(S: set<Bits>, w: nat)
    requires Bounded(S, w)
    ensures NodeCovered(S, w, []) <==> Covers(S, w)
  {
    NodeCoveredIff(S, w, []);
  }

  // ---------- The marked prefixes form a complete prefix code ----------

  function Pow2(n: nat): (r: nat)
    ensures r > 0
  {
    if n == 0 then 1 else 2 * Pow2(n - 1)
  }

  /** The number of addresses of `w` bits below the listed prefixes, counted one prefix at a time. */
  ghost function Weight(ps: seq<Bits>, w: nat): nat {
    if ps == [] then 0
    else (if |ps[0]| <= w then Pow2(w - |ps[0]|) else 0) + Weight(ps[1..], w)
  }

  lemma {:induction false} WeightConcat(ps: seq<Bits>, qs: seq<Bits>, w: nat)
    ensures Weight(ps + qs, w) == Weight(ps, w) + Weight(qs, w)
  {
    if ps == [] {
      assert ps + qs == qs;
    } else {
      assert (ps + qs)[1..] == ps[1..] + qs;
      WeightConcat(ps[1..], qs, w);
    }
  }

  ghost predicate PrefixFree(ps: seq<Bits>) {
    forall i, j | 0 <= i < |ps| && 0 <= j < |ps| && ps[i] <= ps[j] :: i == j
  }

  lemma PrefixFreeConcat(l: seq<Bits>, r: seq<Bits>, n: nat)
    requires PrefixFree(l) && PrefixFree(r)
    requires forall x | x in l :: |x| > n && !x[n]
    requires forall y | y in r :: |y| > n && y[n]
    ensures PrefixFree(l + r)
  {
    var m := l + r;
    forall i, j | 0 <= i < |m| && 0 <= j < |m| && m[i] <= m[j]
      ensures i == j
    {
      assert m[i][n] == m[j][n];
      assert i < |l| ==> m[i] in l;
      assert j < |l| ==> m[j] in l;
      assert i >= |l| ==> m[i] in r;
      assert j >= |l| ==> m[j] in r;
    }
  }

  /** Below `p`, marking stops at exactly the shallowest prefixes. */
  lemma {:induction false} MarkedMembers(S: set<Bits>, w: nat, p: Bits)
    requires |p| <= w && NodeCovered(S, w, p) && NoAncestor(S, p)
    ensures forall q :: q in Marked(S, w, p) <==> q in Minimal(S) && p <= q
    decreases w - |p|
  {
    if p in S {
      forall q
        ensures q in Minimal(S) && p <= q <==> q == p
      {
        if q in S && p <= q {
          PrefixOrder(p, q, q);
          if p < q { assert p in Ancestors(S, q); }
        }
        if q == p { assert Ancestors(S, q) == {}; }
      }
    } else {
      ChildNoAncestor(S, p, false);
      ChildNoAncestor(S, p, true);
      MarkedMembers(S, w, p + [false]);
      MarkedMembers(S, w, p + [true]);
      forall q | q in S
        ensures p <= q <==> p + [false] <= q || p + [true] <= q
      {
        BelowChildren(p, q);
      }
    }
  }

  /** Below `p`, the marked prefixes are pairwise incomparable and fill the whole subtree. */
  lemma {:induction false} MarkedCode(S: set<Bits>, w: nat, p: Bits)
    requires |p| <= w && NodeCovered(S, w, p) && NoAncestor(S, p)
    ensures PrefixFree(Marked(S, w, p))
    ensures Weight(Marked(S, w, p), w) == Pow2(w - |p|)
    decreases w - |p|
  {
    if p in S {
      assert Weight([p], w) == Pow2(w - |p|) + Weight([p][1..], w);
    } else {
      var l, r := Marked(S, w, p + [false]), Marked(S, w, p + [true]);
      ChildNoAncestor(S, p, false);
      ChildNoAncestor(S, p, true);
      MarkedCode(S, w, p + [false]);
      MarkedCode(S, w, p + [true]);
      MarkedMembers(S, w, p + [false]);
      MarkedMembers(S, w, p + [true]);
      assert forall x | p + [false] <= x :: x[|p|] == (p + [false])[|p|];
      assert forall x | p + [true] <= x :: x[|p|] == (p + [true])[|p|];
      PrefixFreeConcat(l, r, |p|);
      WeightConcat(l, r, w);
    }
  }

  /** `ps[i]` is the one listed prefix that matches `a`. */
  ghost predicate OnlyMatch(ps: seq<Bits>, a: Bits, i: nat) {
    && i < |ps| && ps[i] <= a
    && forall j | 0 <= j < |ps| && ps[j] <= a :: j == i
  }

  /**
   A round that fires marks a complete prefix code: the marked prefixes are the shallowest ones, no two
   are comparable, every address lies below exactly one, and their sizes add up to the address space.
   */
  lemma MarkedIsCompleteCode(S: set<Bits>, w: nat)
    requires Bounded(S, w) && NodeCovered(S, w, [])
    ensures forall q :: q in Marked(S, w, []) <==> q in Minimal(S)
    ensures PrefixFree(Marked(S, w, []))
    ensures forall a: Bits | |a| == w :: exists i :: OnlyMatch(Marked(S, w, []), a, i)
    ensures Weight(Marked(S, w, []), w) == Pow2(w)
  {
    var m := Marked(S, w, []);
    MarkedMembers(S, w, []);
    MarkedCode(S, w, []);
    RootCoveredIff(S, w);
    forall a: Bits | |a| == w
      ensures exists i :: OnlyMatch(m, a, i)
    {
      var q := ShallowestMatch(S, a);
      var i :| 0 <= i < |m| && m[i] == q;
      forall j | 0 <= j < |m| && m[j] <= a
        ensures j == i
      {
        if |m[j]| <= |q| { Comparable(m[j], q, a); } else { Comparable(q, m[j], a); }
      }
      assert OnlyMatch(m, a, i);
    }
  }

  lemma ShallowestMatch(S: set<Bits>, a: Bits) returns (q: Bits)
    requires Matching(S, a) != {}
    ensures q in Minimal(S) && q <= a
  {
    q := LongestMatch(S, a);
    if Depth(S, q) > 0 {
      var p := q;
      q := AncestorAt(S, p, 0);
      PrefixOrder(q, p, a);
    }
  }

  // ---------- Adding a prefix ----------

  /** One more prefix raises the least match count by at most one and never lowers it. */
  lemma LeastMatchGrows(S: set<Bits>, p: Bits, w: nat, k: nat, k': nat)
    requires LeastMatch(S, w, k) && LeastMatch(S + {p}, w, k')
    ensures k <= k' <= k + 1
  {
    var a: Bits :| |a| == w && |Matching(S, a)| == k;
    var b: Bits :| |b| == w && |Matching(S + {p}, b)| == k';
    MatchingGrows(S, p, a);
    MatchingGrows(S, p, b);
  }

  lemma MatchingGrows(S: set<Bits>, p: Bits, a: Bits)
    ensures |Matching(S, a)| <= |Matching(S + {p}, a)| <= |Matching(S, a)| + 1
  {
    var m := Matching(S, a);
    if p <= a && p !in S {
      assert Matching(S + {p}, a) == m + {p};
    } else {
      assert Matching(S + {p}, a) == m;
    }
  }

  lemma OneOfThree(a: Bits)
    requires |a| >= 2
    ensures |Matching({[false], [true, false], [true, true]}, a)| == 1
  {
    var S: set<Bits> := {[false], [true, false], [true, true]};
    assert a[..1] == [a[0]] && a[..2] == [a[0], a[1]];
    if !a[0] {
      assert Matching(S, a) == {[false]};
    } else if !a[1] {
      assert Matching(S, a) == {[true, false]};
    } else {
      assert Matching(S, a) == {[true, true]};
    }
  }

  /**
   Blocking is not monotone: with the two halves of the space listed as one half and two quarters, every
   listed prefix is blocked; listing the other half as well unblocks the quarters.
   */
  lemma AddingCanUnblock(w: nat)
    requires w >= 2
    ensures var S: set<Bits> := {[false], [true, false], [true, true]};
            && LeastMatch(S, w, 1) && Depth(S, [true, false]) == 0
            && LeastMatch(S + {[true]}, w, 1) && Depth(S + {[true]}, [true, false]) == 1
  {
    var S: set<Bits> := {[false], [true, false], [true, true]};
    var T := S + {[true]};
    var low: Bits := [false] + seq(w - 1, _ => false);
    forall a: Bits | |a| == w
      ensures 1 == |Matching(S, a)| && 1 <= |Matching(T, a)|
    {
      OneOfThree(a);
      MatchingGrows(S, [true], a);
    }
    OneOfThree(low);
    var half, quarter: Bits := [true], [true, false];
    assert low[..1][0] != half[0] && !(half <= low);
    assert Matching(T, low) == Matching(S, low);
    assert quarter[..1] == half && half[0] != [false][0] && !([false] < quarter);
    assert Ancestors(S, quarter) == {};
    assert Ancestors(T, [true, false]) == {[true]};
  }
}
