/**
 The binary trie of the router's destination check, built in place from the networks that are not blocked. A
 recursive function, `Lists`, says which nodes exist and which network indexes each one lists, and `BuildTries`
 is proved to build exactly that. The trie is the source's linked structure; a ghost map from (address width,
 path) to node describes it.
 */
module RouterTrie {
  import opened PrefixCover
  import opened RouterNetworks

  /** An address width and a path from its root. */
  type Place = (nat, Bits)

  function Below(k: Place, d: bool): Place {
    (k.0, k.1 + [d])
  }

  // ---------- The networks that take part ----------

  /** Network `i` is inserted into the trie of width `w`. */
  predicate InTrie(nets: Networks, blocked: set<nat>, w: nat, i: nat) {
    i < |nets| && i !in blocked && nets[i].Width() == w
  }

  /** The distinct prefixes of the first `n` networks that are inserted into the trie of width `w`. */
  function ActiveUpTo(nets: Networks, blocked: set<nat>, w: nat, n: nat): set<Bits>
    requires n <= |nets|
  {
    set i | 0 <= i < n && InTrie(nets, blocked, w, i) :: nets[i].Prefix()
  }

  function Active(nets: Networks, blocked: set<nat>, w: nat): set<Bits> {
    ActiveUpTo(nets, blocked, w, |nets|)
  }

  /** The distinct listed prefixes of one address family. */
  function Listed(nets: Networks, w: nat): set<Bits> {
    Active(nets, {}, w)
  }

  predicate Taken(nets: Networks, blocked: set<nat>, i: nat)
    requires i < |nets|
  {
    i !in blocked && IsFamily(nets[i].Width())
  }

  // ---------- Which nodes exist and what they list ----------

  /** The places on the way from the root to `p`. */
  ghost function PathPlaces(w: nat, p: Bits): set<Place> {
    set i | 0 <= i <= |p| :: (w, p[..i])
  }

  ghost function IndexesAt(lists: map<Place, seq<nat>>, k: Place): seq<nat> {
    if k in lists then lists[k] else []
  }

  /** The lists once the path to `place` exists. */
  ghost function Extended(lists: map<Place, seq<nat>>, place: Place): map<Place, seq<nat>> {
    map k | k in lists.Keys + PathPlaces(place.0, place.1) :: IndexesAt(lists, k)
  }

  /** The lists after the path to `place` has been created and `index` appended at its end. */
  ghost function Appended(lists: map<Place, seq<nat>>, place: Place, index: nat): map<Place, seq<nat>> {
    Extended(lists, place)[place := IndexesAt(lists, place) + [index]]
  }

  /** The nodes after the first `n` networks, with the indexes each one lists. */
  ghost function Lists(nets: Networks, blocked: set<nat>, n: nat): map<Place, seq<nat>>
    requires n <= |nets|
  {
    if n == 0 then map[(IPV4_BITS, []) := [], (IPV6_BITS, []) := []]
    else if Taken(nets, blocked, n - 1) then
      Appended(Lists(nets, blocked, n - 1), (nets[n - 1].Width(), nets[n - 1].Prefix()), n - 1)
    else Lists(nets, blocked, n - 1)
  }

  lemma PathPlacesStep(w: nat, p: Bits, d: bool)
    ensures PathPlaces(w, p + [d]) == PathPlaces(w, p) + {Below((w, p), d)}
  {
    forall k
      ensures k in PathPlaces(w, p + [d]) <==> k in PathPlaces(w, p) || k == Below((w, p), d)
    {
      PathPlacesArePrefixes(w, p + [d], k);
      PathPlacesArePrefixes(w, p, k);
      if k.1 <= p + [d] { PrefixOrder(k.1, p + [d], p + [d]); }
      if k.1 < p + [d] { Comparable(k.1, p, p + [d]); }
      if k.1 <= p { PrefixOrder(k.1, p, p + [d]); }
    }
  }

  lemma PathPlacesArePrefixes(w: nat, p: Bits, k: Place)
    ensures k in PathPlaces(w, p) <==> k.0 == w && k.1 <= p
  {
    if k.0 == w && k.1 <= p {
      assert p[..|k.1|] == k.1;
    }
  }

  lemma ActiveStep(nets: Networks, blocked: set<nat>, w: nat, n: nat)
    requires n < |nets|
    ensures ActiveUpTo(nets, blocked, w, n + 1) ==
            ActiveUpTo(nets, blocked, w, n) + if InTrie(nets, blocked, w, n) then {nets[n].Prefix()} else {}
  {
  }

  /** A node exists exactly on the way to an inserted prefix. */
  lemma {:induction false} ListsKeys(nets: Networks, blocked: set<nat>, n: nat, k: Place)
    requires n <= |nets|
    ensures k in Lists(nets, blocked, n) <==> IsFamily(k.0) && HasNode(ActiveUpTo(nets, blocked, k.0, n), k.1)
  {
    if n > 0 {
      var p := nets[n - 1].Prefix();
      AtEnd(Lists(nets, blocked, n - 1), (nets[n - 1].Width(), p));
      ListsKeys(nets, blocked, n - 1, k);
      ActiveStep(nets, blocked, k.0, n - 1);
      PathPlacesArePrefixes(nets[n - 1].Width(), p, k);
      HasNodeGrows(ActiveUpTo(nets, blocked, k.0, n - 1), p, k.1);
    }
  }

  lemma HasNodeGrows(S: set<Bits>, p: Bits, q: Bits)
    ensures HasNode(S + {p}, q) <==> HasNode(S, q) || q <= p
  {
    if q <= p { assert p in S + {p}; }
    if q != [] && HasNode(S, q) {
      var r :| r in S && q <= r;
      assert r in S + {p};
    }
  }

  /** A node lists exactly the inserted networks whose prefix ends there. */
  lemma {:induction false} ListsAt(nets: Networks, blocked: set<nat>, n: nat, k: Place, i: nat)
    requires n <= |nets| && k in Lists(nets, blocked, n)
    ensures i in Lists(nets, blocked, n)[k] <==> i < n && InTrie(nets, blocked, k.0, i) && nets[i].Prefix() == k.1
  {
    if n > 0 {
      ListsKeys(nets, blocked, n, k);
      ListsKeys(nets, blocked, n - 1, k);
      if k in Lists(nets, blocked, n - 1) {
        ListsAt(nets, blocked, n - 1, k, i);
      } else if i < n - 1 && InTrie(nets, blocked, k.0, i) {
        assert nets[i].Prefix() in ActiveUpTo(nets, blocked, k.0, n - 1);
      }
    }
  }

  // ---------- The linked structure ----------

  class RouterCIDRNode {
    var child0: RouterCIDRNode?
    var child1: RouterCIDRNode?
    var networkIndexes: seq<nat>
    ghost const place: Place

    constructor (ghost place: Place)
      ensures child0 == null && child1 == null && networkIndexes == [] && this.place == place
    {
      child0, child1, networkIndexes := null, null, [];
      this.place := place;
    }

    function Child(d: bool): RouterCIDRNode?
      reads this
    {
      if d then child1 else child0
    }
  }

  type Nodes = map<Place, RouterCIDRNode>

  ghost function NodeAt(nodes: Nodes, k: Place): RouterCIDRNode? {
    if k in nodes then nodes[k] else null
  }

  /** Every node sits at its own place, below its parent, and its child pointers follow the paths. */
  ghost predicate Linked(nodes: Nodes)
    reads nodes.Values
  {
    && (forall k {:trigger nodes[k].place} | k in nodes :: nodes[k].place == k)
    && (forall k {:trigger nodes[k].child0} | k in nodes :: nodes[k].child0 == NodeAt(nodes, Below(k, false)))
    && (forall k {:trigger nodes[k].child1} | k in nodes :: nodes[k].child1 == NodeAt(nodes, Below(k, true)))
    && (forall k: Place, d: bool {:trigger Below(k, d)} | Below(k, d) in nodes :: k in nodes)
  }

  /** The index list of every node. */
  ghost function Indexes(nodes: Nodes): map<Place, seq<nat>>
    reads nodes.Values
  {
    map k | k in nodes :: nodes[k].networkIndexes
  }

  lemma BelowInjective(k: Place, d: bool, k': Place, d': bool)
    ensures Below(k, d) == Below(k', d') ==> k == k' && d == d'
  {
    assert (k.1 + [d])[..|k.1|] == k.1 && (k'.1 + [d'])[..|k'.1|] == k'.1;
    assert (k.1 + [d])[|k.1|] == d && (k'.1 + [d'])[|k'.1|] == d';
  }

  lemma NotBelowItself(k: Place, d: bool, e: bool)
    ensures k != Below(k, d) && k != Below(Below(k, d), e)
  {
    assert |Below(k, d).1| == |k.1| + 1;
  }

  /** The lists once `k` has a node. */
  ghost function WithPlace(lists: map<Place, seq<nat>>, k: Place): map<Place, seq<nat>> {
    lists[k := IndexesAt(lists, k)]
  }

  /** One step down from `node`, creating the child when it is missing. */
  method Descend(node: RouterCIDRNode, direction: bool, ghost nodes: Nodes)
    returns (child: RouterCIDRNode, ghost grown: Nodes)
    requires Linked(nodes) && NodeAt(nodes, node.place) == node
    modifies node
    ensures Linked(grown) && fresh(grown.Values - nodes.Values)
    ensures child.place == Below(node.place, direction)
    ensures NodeAt(grown, child.place) == child
    ensures forall k | k in nodes :: k in grown && grown[k] == nodes[k]
    ensures Indexes(grown) == WithPlace(old(Indexes(nodes)), child.place)
  {
    if node.Child(direction) == null {
      ghost var there := Below(node.place, direction);
      child := new RouterCIDRNode(there);
      grown := nodes[there := child];
      if direction { node.child1 := child; } else { node.child0 := child; }
      forall k, d: bool
        ensures Below(k, d) == there ==> k == node.place && d == direction
      {
        BelowInjective(k, d, node.place, direction);
      }
      NotBelowItself(node.place, direction, false);
      NotBelowItself(node.place, direction, true);
    } else {
      child := node.Child(direction);
      grown := nodes;
    }
  }

  lemma ExtendedStep(lists: map<Place, seq<nat>>, k: Place, d: bool)
    ensures Extended(lists, Below(k, d)) == WithPlace(Extended(lists, k), Below(k, d))
  {
    PathPlacesStep(k.0, k.1, d);
  }

  /** Walk from the root along `prefix`, creating missing nodes; the result is the node at its end. */
  method Walk(root: RouterCIDRNode, prefix: Bits, ghost nodes: Nodes) returns (node: RouterCIDRNode, ghost grown: Nodes)
    requires Linked(nodes) && NodeAt(nodes, root.place) == root && root.place.1 == []
    modifies nodes.Values
    ensures Linked(grown) && fresh(grown.Values - nodes.Values)
    ensures node.place == (root.place.0, prefix) && NodeAt(grown, node.place) == node
    ensures forall k | k in nodes :: k in grown && grown[k] == nodes[k]
    ensures Indexes(grown) == Extended(old(Indexes(nodes)), node.place)
  {
    node, grown := root, nodes;
    ExtendedRoot(Indexes(nodes), root.place);
    var bit := 0;
    while bit < |prefix|
      invariant 0 <= bit <= |prefix|
      invariant node.place == (root.place.0, prefix[..bit]) && NodeAt(grown, node.place) == node
      invariant Linked(grown) && fresh(grown.Values - nodes.Values)
      invariant forall k | k in nodes :: k in grown && grown[k] == nodes[k]
      invariant Indexes(grown) == Extended(old(Indexes(nodes)), node.place)
    {
      var direction := prefix[bit];
      ExtendedStep(old(Indexes(nodes)), node.place, direction);
      node, grown := Descend(node, direction, grown);
      bit := bit + 1;
      assert prefix[..bit] == prefix[..bit - 1] + [direction];
    }
    assert prefix[..bit] == prefix;
  }

  lemma ExtendedRoot(lists: map<Place, seq<nat>>, k: Place)
    requires k in lists && k.1 == []
    ensures Extended(lists, k) == lists
  {
    assert PathPlaces(k.0, k.1) == {k} by { assert k.1[..0] == []; }
  }

  /** Insert network `index`: create its path and append the index at the end. */
  method Insert(root: RouterCIDRNode, prefix: Bits, index: nat, ghost nodes: Nodes) returns (ghost grown: Nodes)
    requires Linked(nodes) && NodeAt(nodes, root.place) == root && root.place.1 == []
    modifies nodes.Values
    ensures Linked(grown) && fresh(grown.Values - nodes.Values)
    ensures forall k | k in nodes :: k in grown && grown[k] == nodes[k]
    ensures Indexes(grown) == Appended(old(Indexes(nodes)), (root.place.0, prefix), index)
  {
    var node: RouterCIDRNode;
    node, grown := Walk(root, prefix, nodes);
    AtEnd(old(Indexes(nodes)), node.place);
    node.networkIndexes := node.networkIndexes + [index];
    assert forall k | k in grown && k != node.place :: grown[k] != node;
  }

  lemma AtEnd(lists: map<Place, seq<nat>>, place: Place)
    ensures place in Extended(lists, place)
  {
    PathPlacesArePrefixes(place.0, place.1, place);
  }

  /** The tries hold the first `n` networks, under the two roots. */
  ghost predicate Holds(nodes: Nodes, root4: RouterCIDRNode, root6: RouterCIDRNode,
                        nets: Networks, blocked: set<nat>, n: nat)
    requires n <= |nets|
    reads nodes.Values
  {
    && Linked(nodes) && Indexes(nodes) == Lists(nets, blocked, n)
    && root4.place == (IPV4_BITS, []) && NodeAt(nodes, root4.place) == root4
    && root6.place == (IPV6_BITS, []) && NodeAt(nodes, root6.place) == root6
  }

  /** One empty trie per address family. */
  method NewRoots(ghost nets: Networks, ghost blocked: set<nat>)
    returns (root4: RouterCIDRNode, root6: RouterCIDRNode, ghost nodes: Nodes)
    ensures Holds(nodes, root4, root6, nets, blocked, 0) && fresh(nodes.Values)
  {
    root4 := new RouterCIDRNode((IPV4_BITS, []));
    root6 := new RouterCIDRNode((IPV6_BITS, []));
    nodes := map[root4.place := root4, root6.place := root6];
    assert Indexes(nodes) == Lists(nets, blocked, 0);
  }

  /** Build both tries from the networks that are not yet blocked. */
  method BuildTries(nets: Networks, blocked: set<nat>)
    returns (root4: RouterCIDRNode, root6: RouterCIDRNode, ghost nodes: Nodes)
    ensures Holds(nodes, root4, root6, nets, blocked, |nets|) && fresh(nodes.Values)
  {
    root4, root6, nodes := NewRoots(nets, blocked);
    for index := 0 to |nets|
      invariant Holds(nodes, root4, root6, nets, blocked, index) && fresh(nodes.Values)
    {
      if index in blocked || !IsFamily(nets[index].Width()) {
        continue;
      }
      var root := if nets[index].Width() == IPV4_BITS then root4 else root6;
      nodes := Insert(root, nets[index].Prefix(), index, nodes);
    }
  }

  /** A place lists an index exactly when it is an active prefix. */
  lemma ListedHere(nets: Networks, blocked: set<nat>, k: Place)
    requires k in Lists(nets, blocked, |nets|)
    ensures Lists(nets, blocked, |nets|)[k] != [] <==> k.1 in Active(nets, blocked, k.0)
  {
    var here := Lists(nets, blocked, |nets|)[k];
    if here != [] {
      assert here[0] in here;
      ListsAt(nets, blocked, |nets|, k, here[0]);
    }
    if k.1 in Active(nets, blocked, k.0) {
      var i :| 0 <= i < |nets| && InTrie(nets, blocked, k.0, i) && nets[i].Prefix() == k.1;
      ListsAt(nets, blocked, |nets|, k, i);
    }
  }

  lemma ActiveBounded(nets: Networks, blocked: set<nat>, w: nat)
    ensures Bounded(Active(nets, blocked, w), w)
  {
  }

  /** A node without an active prefix, and its children, lie within the address width. */
  lemma InnerNode(nets: Networks, blocked: set<nat>, k: Place)
    requires k in Lists(nets, blocked, |nets|) && k.1 !in Active(nets, blocked, k.0)
    ensures |k.1| < k.0
  {
    ListsKeys(nets, blocked, |nets|, k);
    ActiveBounded(nets, blocked, k.0);
    if k.1 != [] {
      var q :| q in Active(nets, blocked, k.0) && k.1 <= q;
      PrefixOrder(k.1, q, q);
    }
  }

  /** The recursive cover test, at the node for `k` or at a missing child. */
  method RouterCIDRCovered(node: RouterCIDRNode?, ghost nodes: Nodes, ghost nets: Networks, ghost blocked: set<nat>,
                           ghost k: Place)
    returns (covered: bool)
    requires Linked(nodes) && Indexes(nodes) == Lists(nets, blocked, |nets|) && NodeAt(nodes, k) == node
    requires IsFamily(k.0) && |k.1| <= k.0
    ensures covered <==> NodeCovered(Active(nets, blocked, k.0), k.0, k.1)
    decreases k.0 - |k.1|
  {
    ListsKeys(nets, blocked, |nets|, k);
    if node == null {
      return false;
    }
    ListedHere(nets, blocked, k);
    if node.networkIndexes != [] {
      return true;
    }
    InnerNode(nets, blocked, k);
    covered := RouterCIDRCovered(node.child0, nodes, nets, blocked, Below(k, false));
    if covered {
      covered := RouterCIDRCovered(node.child1, nodes, nets, blocked, Below(k, true));
    }
  }
}
