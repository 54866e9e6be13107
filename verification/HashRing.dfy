/**
 The consistent hash ring.

 The hash of a string is a parameter.  Where a law needs the ring's points to have different hashes, it
 says so.
 */
module HashRings {
  import opened Options
  import opened Sorting

  type NodeId = string

  /** A point of the ring. */
  datatype VirtualNode = VirtualNode(hash: nat, node: NodeId, index: nat)

  function Decimal(n: nat): string {
    if n < 10 then [('0' as int + n) as char] else Decimal(n / 10) + [('0' as int + n % 10) as char]
  }

  /** What is hashed for point i of a node. */
  function Label(node: NodeId, i: nat): string {
    node + "-vnode-" + Decimal(i)
  }

  function Point(hash: string -> nat, node: NodeId, i: nat): VirtualNode {
    VirtualNode(hash(Label(node, i)), node, i)
  }

  predicate IsDigit(c: char) {
    '0' <= c <= '9'
  }

  lemma {:induction false} DecimalDigits(n: nat)
    ensures |Decimal(n)| >= 1 && forall k :: 0 <= k < |Decimal(n)| ==> IsDigit(Decimal(n)[k])
  {
    if n >= 10 { DecimalDigits(n / 10); }
  }

  lemma {:induction false} DecimalDiffers(m: nat, n: nat)
    requires Decimal(m) == Decimal(n)
    ensures m == n
    decreases m + n
  {
    DecimalDigits(m / 10);
    DecimalDigits(n / 10);
    assert Decimal(m)[|Decimal(m)| - 1] == Decimal(n)[|Decimal(n)| - 1];
    if m >= 10 && n >= 10 {
      assert Decimal(m)[..|Decimal(m)| - 1] == Decimal(m / 10) && Decimal(n)[..|Decimal(n)| - 1] == Decimal(n / 10);
      DecimalDiffers(m / 10, n / 10);
    }
  }

  /** Read from its end, a label has the digits of the index and then a dash. */
  lemma FromTheEnd(node: NodeId, i: nat, d: nat)
    requires d <= |Decimal(i)|
    ensures var s := Label(node, i); d < |s| && (s[|s| - 1 - d] == '-' <==> d == |Decimal(i)|)
  {
    DecimalDigits(i);
    var s, ds := Label(node, i), Decimal(i);
    if d < |ds| {
      assert s[|s| - 1 - d] == ds[|ds| - 1 - d];
      assert IsDigit(ds[|ds| - 1 - d]);
    }
  }

  lemma NotShorter(a: NodeId, i: nat, b: NodeId, j: nat)
    requires Label(a, i) == Label(b, j)
    ensures |Decimal(i)| >= |Decimal(j)|
  {
    FromTheEnd(a, i, |Decimal(i)|);
    if |Decimal(i)| < |Decimal(j)| { FromTheEnd(b, j, |Decimal(i)|); }
  }

  /** Different points have different labels. */
  lemma LabelsDiffer(a: NodeId, i: nat, b: NodeId, j: nat)
    requires Label(a, i) == Label(b, j)
    ensures a == b && i == j
  {
    NotShorter(a, i, b, j);
    NotShorter(b, j, a, i);
    var s := Label(a, i);
    assert s[|s| - |Decimal(i)|..] == Decimal(i) == Decimal(j);
    DecimalDiffers(i, j);
    assert s[..|a|] == a && s[..|b|] == b;
  }

  /** If no two strings have the same hash, no two points of a ring have. */
  lemma PointsDiffer(hash: string -> nat, nodes: set<NodeId>, v: nat)
    requires forall s, t :: hash(s) == hash(t) ==> s == t
    ensures DistinctHashes(Points(hash, nodes, v))
  {
    forall p, q | p in Points(hash, nodes, v) && q in Points(hash, nodes, v) && p.hash == q.hash ensures p == q {
      var a, i :| a in nodes && 0 <= i < v && p == Point(hash, a, i);
      var b, j :| b in nodes && 0 <= j < v && q == Point(hash, b, j);
      LabelsDiffer(a, i, b, j);
    }
  }

  /** A node has as many points as it is given. */
  lemma {:induction false} PointsOfSize(hash: string -> nat, node: NodeId, count: nat)
    ensures |PointsOf(hash, node, count)| == count
  {
    if count > 0 {
      PointsOfSize(hash, node, count - 1);
      assert PointsOf(hash, node, count) == PointsOf(hash, node, count - 1) + {Point(hash, node, count - 1)};
    }
  }

  ghost function PointsOf(hash: string -> nat, node: NodeId, count: nat): set<VirtualNode> {
    set i | 0 <= i < count :: Point(hash, node, i)
  }

  /** The points that a set of nodes has with v points per node. */
  ghost function Points(hash: string -> nat, nodes: set<NodeId>, v: nat): set<VirtualNode> {
    set node, i | node in nodes && 0 <= i < v :: Point(hash, node, i)
  }

  ghost predicate Sorted(vs: seq<VirtualNode>) {
    forall i, j :: 0 <= i < j < |vs| ==> vs[i].hash <= vs[j].hash
  }

  ghost predicate DistinctHashes(ps: set<VirtualNode>) {
    forall a, b :: a in ps && b in ps && a.hash == b.hash ==> a == b
  }

  // ---------------------------------------------------------------- who owns a hash

  /** Going clockwise from h, v is met no later than w. */
  predicate NotLater(h: nat, v: VirtualNode, w: VirtualNode) {
    if v.hash >= h then w.hash < h || v.hash <= w.hash else w.hash < h && v.hash <= w.hash
  }

  /** v is a first point at or after h, clockwise. */
  ghost predicate Owns(ps: set<VirtualNode>, h: nat, v: VirtualNode) {
    v in ps && forall w :: w in ps ==> NotLater(h, v, w)
  }

  /** If no two points have the same hash, a hash has one owner. */
  lemma OneOwner(ps: set<VirtualNode>, h: nat, v: VirtualNode, w: VirtualNode)
    requires DistinctHashes(ps) && Owns(ps, h, v) && Owns(ps, h, w)
    ensures v == w
  {
    assert NotLater(h, v, w) && NotLater(h, w, v);
  }

  /** When a node joins, a hash keeps its owner or moves to the new node.  Read backwards: when a node
      leaves, only the hashes that it owned move. */
  lemma JoiningMovesLeast(hash: string -> nat, nodes: set<NodeId>, node: NodeId, v: nat, h: nat,
                          before: VirtualNode, after: VirtualNode)
    requires node !in nodes && DistinctHashes(Points(hash, nodes + {node}, v))
    requires Owns(Points(hash, nodes, v), h, before) && Owns(Points(hash, nodes + {node}, v), h, after)
    ensures after == before || after.node == node
    ensures after.node == node <==> exists p :: p in PointsOf(hash, node, v) && !NotLater(h, before, p)
  {
    JoinedPoints(hash, nodes, node, v);
    var joined := Points(hash, nodes + {node}, v);
    if after.node == node {
      assert NotLater(h, after, before);
      assert after in joined && before in joined && after.hash != before.hash;
      assert !NotLater(h, before, after);
    } else {
      OneOwner(Points(hash, nodes, v), h, before, after);
    }
  }

  lemma JoinedPoints(hash: string -> nat, nodes: set<NodeId>, node: NodeId, v: nat)
    requires node !in nodes
    ensures Points(hash, nodes + {node}, v) == Points(hash, nodes, v) + PointsOf(hash, node, v)
    ensures Points(hash, nodes, v) !! PointsOf(hash, node, v)
    ensures forall p :: p in PointsOf(hash, node, v) ==> p.node == node
    ensures forall p :: p in Points(hash, nodes, v) ==> p.node in nodes
  {}

  // ---------------------------------------------------------------- the points in order

  ghost function Without(vs: seq<VirtualNode>, node: NodeId): seq<VirtualNode> {
    if vs == [] then []
    else Without(vs[..|vs| - 1], node) + if vs[|vs| - 1].node != node then [vs[|vs| - 1]] else []
  }

  lemma {:induction false} WithoutCounts(vs: seq<VirtualNode>, node: NodeId, p: VirtualNode)
    ensures multiset(Without(vs, node))[p] == if p.node == node then 0 else multiset(vs)[p]
  {
    if vs != [] {
      var n := |vs| - 1;
      WithoutCounts(vs[..n], node, p);
      LastCounts(vs);
      if vs[n].node != node { LastCounts(Without(vs, node)); }
    }
  }

  lemma {:induction false} WithoutSorted(vs: seq<VirtualNode>, node: NodeId)
    requires Sorted(vs)
    ensures Sorted(Without(vs, node))
    ensures forall p :: p in Without(vs, node) ==> p in vs
  {
    if vs != [] {
      var n := |vs| - 1;
      WithoutSorted(vs[..n], node);
      forall p | p in Without(vs[..n], node) ensures p.hash <= vs[n].hash {
        var i :| 0 <= i < n && vs[..n][i] == p;
      }
    }
  }

  ghost predicate Rising(vs: seq<VirtualNode>) {
    forall i, j :: 0 <= i < j < |vs| ==> vs[i].hash < vs[j].hash
  }

  lemma DistinctRise(vs: seq<VirtualNode>, ps: set<VirtualNode>)
    requires Sorted(vs) && multiset(vs) == multiset(ps) && DistinctHashes(ps)
    ensures Rising(vs)
  {
    forall i, j | 0 <= i < j < |vs| ensures vs[i].hash < vs[j].hash {
      assert vs[i] in multiset(vs) && vs[j] in multiset(vs);
      assert vs == vs[..j] + [vs[j]] + vs[j + 1..];
      assert vs[i] in vs[..j];
      assert multiset(vs)[vs[j]] == 1;
    }
  }

  /** Adding a node to a ring and removing it again restores the ring. */
  lemma RemovingUndoesAdding(hash: string -> nat, nodes: set<NodeId>, node: NodeId, v: nat,
                             vs: seq<VirtualNode>, added: seq<VirtualNode>)
    requires node !in nodes && DistinctHashes(Points(hash, nodes, v))
    requires Sorted(vs) && multiset(vs) == multiset(Points(hash, nodes, v))
    requires Sorted(added) && multiset(added) == multiset(Points(hash, nodes + {node}, v))
    ensures Without(added, node) == vs
  {
    RemainingPoints(hash, nodes + {node}, node, v, added);
    assert nodes + {node} - {node} == nodes;
    DistinctRise(vs, Points(hash, nodes, v));
    OneOrder(vs, Without(added, node), (v: VirtualNode) => v.hash, (a: nat, b: nat) => a < b);
  }

  method SortByHash(vs: seq<VirtualNode>) returns (out: seq<VirtualNode>)
    ensures Sorted(out) && multiset(out) == multiset(vs)
  {
    out := Sort(vs, (v: VirtualNode) => v.hash, (a: nat, b: nat) => a < b);
  }

  /** How many points at the front are before h. */
  ghost function Before(vs: seq<VirtualNode>, h: nat): (n: nat)
    ensures n <= |vs|
  {
    if vs == [] || vs[0].hash >= h then 0 else 1 + Before(vs[1..], h)
  }

  /** The position of the owner of h: the first point at or after it, or the front. */
  ghost function Home(vs: seq<VirtualNode>, h: nat): (i: nat)
    requires vs != []
    ensures i < |vs|
  {
    if Before(vs, h) == |vs| then 0 else Before(vs, h)
  }

  lemma {:induction false} BeforeIs(vs: seq<VirtualNode>, h: nat, i: nat)
    requires i <= |vs|
    requires (forall k :: 0 <= k < i ==> vs[k].hash < h) && (i < |vs| ==> vs[i].hash >= h)
    ensures i == Before(vs, h)
    decreases |vs|
  {
    if i > 0 {
      assert forall k :: 0 <= k < i - 1 ==> vs[1..][k] == vs[k + 1];
      BeforeIs(vs[1..], h, i - 1);
    }
  }

  /** Binary search for the first point at or after h. */
  method Search(vs: seq<VirtualNode>, h: nat) returns (i: nat)
    requires Sorted(vs)
    ensures i == Before(vs, h)
    ensures (forall k :: 0 <= k < i ==> vs[k].hash < h) && (forall k :: i <= k < |vs| ==> vs[k].hash >= h)
  {
    i := 0;
    var j := |vs|;
    while i < j
      invariant 0 <= i <= j <= |vs|
      invariant forall k :: 0 <= k < i ==> vs[k].hash < h
      invariant forall k :: j <= k < |vs| ==> vs[k].hash >= h
    {
      var mid := (i + j) / 2;
      if vs[mid].hash < h {
        i := mid + 1;
      } else {
        j := mid;
      }
    }
    BeforeIs(vs, h, i);
  }

  // ---------------------------------------------------------------- the walk

  /** The nodes in the order in which they are first met. */
  ghost function Met(vs: seq<VirtualNode>): seq<NodeId> {
    if vs == [] then []
    else
      var before := Met(vs[..|vs| - 1]);
      if vs[|vs| - 1].node in before then before else before + [vs[|vs| - 1].node]
  }

  lemma {:induction false} MetOnce(vs: seq<VirtualNode>)
    ensures forall i, j :: 0 <= i < j < |Met(vs)| ==> Met(vs)[i] != Met(vs)[j]
    ensures forall n :: n in Met(vs) <==> exists k :: 0 <= k < |vs| && vs[k].node == n
    ensures vs != [] ==> Met(vs) != [] && Met(vs)[0] == vs[0].node
  {
    if vs != [] {
      var last := |vs| - 1;
      MetOnce(vs[..last]);
      forall n ensures n in Met(vs) <==> exists k :: 0 <= k < |vs| && vs[k].node == n {
        if n in Met(vs) && n != vs[last].node {
          var k :| 0 <= k < last && vs[..last][k].node == n;
          assert vs[k].node == n;
        }
        if k :| 0 <= k < last && vs[k].node == n { assert vs[..last][k].node == n; }
      }
    }
  }

  /** Of two nodes the first is met at a point before which the second is not. */
  ghost predicate MetBefore(vs: seq<VirtualNode>, a: NodeId, b: NodeId) {
    exists k :: 0 <= k < |vs| && vs[k].node == a && forall m :: 0 <= m <= k ==> vs[m].node != b
  }

  lemma {:induction false} MetInOrder(vs: seq<VirtualNode>, i: nat, j: nat)
    requires i < j < |Met(vs)|
    ensures MetBefore(vs, Met(vs)[i], Met(vs)[j])
  {
    var last := |vs| - 1;
    var before := Met(vs[..last]);
    MetOnce(vs[..last]);
    if j < |before| {
      MetInOrder(vs[..last], i, j);
      var k :| 0 <= k < last && vs[..last][k].node == Met(vs)[i]
               && forall m :: 0 <= m <= k ==> vs[..last][m].node != Met(vs)[j];
      assert forall m :: 0 <= m <= k ==> vs[m] == vs[..last][m];
    } else {
      assert before[i] in before;
      var k :| 0 <= k < last && vs[..last][k].node == before[i];
      forall m | 0 <= m <= k ensures vs[m].node != vs[last].node { assert vs[m] == vs[..last][m]; }
      assert vs[k].node == Met(vs)[i];
    }
  }

  lemma {:induction false} MetGrows(vs: seq<VirtualNode>, i: nat)
    requires i <= |vs|
    ensures Met(vs[..i]) <= Met(vs)
    decreases |vs|
  {
    if i < |vs| {
      MetGrows(vs[..|vs| - 1], i);
      assert vs[..|vs| - 1][..i] == vs[..i];
    } else {
      assert vs[..i] == vs;
    }
  }

  lemma {:induction false} SizeOfDistinct(ns: seq<NodeId>, s: set<NodeId>)
    requires (forall i, j :: 0 <= i < j < |ns| ==> ns[i] != ns[j]) && (forall n :: n in ns <==> n in s)
    ensures |ns| == |s|
  {
    if ns == [] {
      assert s == {};
    } else {
      var n := |ns| - 1;
      assert ns[n] in ns;
      forall x ensures x in ns[..n] <==> x in s - {ns[n]} {
        if x in s - {ns[n]} {
          var i :| 0 <= i < |ns| && ns[i] == x;
          assert ns[..n][i] == x;
        }
      }
      SizeOfDistinct(ns[..n], s - {ns[n]});
    }
  }

  /** The ring from position start on, once round. */
  ghost function Round(vs: seq<VirtualNode>, start: nat): seq<VirtualNode>
    requires start <= |vs|
  {
    vs[start..] + vs[..start]
  }

  lemma RoundAt(vs: seq<VirtualNode>, start: nat, i: nat)
    requires start < |vs| && i < |vs|
    ensures Round(vs, start)[i] == vs[(start + i) % |vs|]
  {
    if start + i < |vs| {
      assert (start + i) % |vs| == start + i;
    } else {
      assert (start + i) % |vs| == start + i - |vs|;
    }
  }

  /** Once round the ring, every node is met. */
  lemma RoundMeetsAll(hash: string -> nat, nodes: set<NodeId>, v: nat, vs: seq<VirtualNode>, start: nat)
    requires v > 0 && multiset(vs) == multiset(Points(hash, nodes, v)) && start <= |vs|
    ensures forall n :: n in Met(Round(vs, start)) <==> n in nodes
    ensures |Met(Round(vs, start))| == |nodes|
  {
    var round := Round(vs, start);
    MetOnce(round);
    assert vs == vs[..start] + vs[start..];
    assert multiset(round) == multiset(vs);
    forall n ensures n in Met(round) <==> n in nodes {
      if n in nodes {
        var p := Point(hash, n, 0);
        assert p in Points(hash, nodes, v);
        assert p in multiset(round);
        var k :| 0 <= k < |round| && round[k] == p;
      }
      if k :| 0 <= k < |round| && round[k].node == n {
        assert round[k] in multiset(round);
        assert round[k] in Points(hash, nodes, v);
      }
    }
    SizeOfDistinct(Met(round), nodes);
  }

  lemma TakenFromRound(hash: string -> nat, nodes: set<NodeId>, v: nat, vs: seq<VirtualNode>, start: nat,
                       taken: seq<NodeId>)
    requires v > 0 && multiset(vs) == multiset(Points(hash, nodes, v)) && start < |vs|
    requires taken <= Met(Round(vs, start))
    ensures forall i, j :: 0 <= i < j < |taken| ==> taken[i] != taken[j]
    ensures forall n :: n in taken ==> n in nodes
    ensures taken != [] ==> taken[0] == vs[start].node
  {
    RoundMeetsAll(hash, nodes, v, vs, start);
    MetOnce(Round(vs, start));
    assert forall n :: n in taken ==> n in Met(Round(vs, start));
  }

  // ---------------------------------------------------------------- the ring

  const DEFAULT_VIRTUAL_NODES := 150

  class ConsistentHashRing {
    const hash: string -> nat
    const virtualNodes: nat
    var vnodes: seq<VirtualNode>
    var nodeMap: set<NodeId>

    /** The points of the nodes, each once, in the order of their hashes. */
    ghost predicate Valid()
      reads this
    {
      virtualNodes > 0 && Sorted(vnodes) && multiset(vnodes) == multiset(Points(hash, nodeMap, virtualNodes))
    }

    constructor (hash: string -> nat, virtualNodes: int)
      ensures Valid() && nodeMap == {} && this.hash == hash
      ensures this.virtualNodes == if virtualNodes <= 0 then DEFAULT_VIRTUAL_NODES else virtualNodes
    {
      this.hash := hash;
      this.virtualNodes := if virtualNodes <= 0 then DEFAULT_VIRTUAL_NODES else virtualNodes;
      vnodes := [];
      nodeMap := {};
    }

    method AddNode(node: NodeId)
      requires Valid()
      modifies this
      ensures Valid() && nodeMap == old(nodeMap) + {node}
      ensures node in old(nodeMap) ==> vnodes == old(vnodes)
      ensures node !in old(nodeMap) ==>
                && multiset(vnodes) == old(multiset(vnodes)) + multiset(PointsOf(hash, node, virtualNodes))
                && |vnodes| == old(|vnodes|) + virtualNodes
    {
      if node in nodeMap {
        assert nodeMap == nodeMap + {node};
        return;
      }
      PointsCount(hash, nodeMap, node, virtualNodes);
      nodeMap := nodeMap + {node};
      for i := 0 to virtualNodes
        invariant nodeMap == old(nodeMap) + {node}
        invariant multiset(vnodes) == old(multiset(vnodes)) + multiset(PointsOf(hash, node, i))
      {
        var vnode := Point(hash, node, i);
        OneMorePoint(hash, node, i);
        vnodes := vnodes + [vnode];
      }
      vnodes := SortByHash(vnodes);
      PointsOfSize(hash, node, virtualNodes);
      assert |vnodes| == |multiset(vnodes)|;
    }

    method RemoveNode(node: NodeId)
      requires Valid()
      modifies this
      ensures Valid() && nodeMap == old(nodeMap) - {node}
      ensures vnodes == if node in old(nodeMap) then Without(old(vnodes), node) else old(vnodes)
    {
      if node !in nodeMap {
        assert nodeMap == nodeMap - {node};
        return;
      }
      nodeMap := nodeMap - {node};
      var remaining := [];
      for i := 0 to |vnodes|
        invariant vnodes == old(vnodes) && nodeMap == old(nodeMap) - {node}
        invariant remaining == Without(vnodes[..i], node)
      {
        assert vnodes[..i + 1][..i] == vnodes[..i];
        if vnodes[i].node != node {
          remaining := remaining + [vnodes[i]];
        }
      }
      assert vnodes[..|vnodes|] == vnodes;
      RemainingPoints(hash, old(nodeMap), node, virtualNodes, vnodes);
      vnodes := remaining;
    }

    /** The owner of the key's hash, unless the ring is empty. */
    method GetNode(key: string) returns (r: Option<NodeId>)
      requires Valid()
      ensures r.None? <==> nodeMap == {}
      ensures r.Some? ==> vnodes != [] && r.value == vnodes[Home(vnodes, hash(key))].node
      ensures r.Some? ==> Owns(Points(hash, nodeMap, virtualNodes), hash(key), vnodes[Home(vnodes, hash(key))])
    {
      PointsEmpty(hash, nodeMap, virtualNodes);
      if |vnodes| == 0 {
        assert multiset(vnodes) == multiset{};
        return None;
      }
      assert vnodes[0] in multiset(vnodes);
      var idx := Search(vnodes, hash(key));
      if idx == |vnodes| {
        idx := 0;
      }
      StartOwns(vnodes, Points(hash, nodeMap, virtualNodes), hash(key), idx);
      r := Some(vnodes[idx].node);
    }

    /** The first count nodes met clockwise from the key's hash, or all if there are fewer. */
    method GetNodes(key: string, count: int) returns (r: Option<seq<NodeId>>)
      requires Valid()
      ensures r.None? <==> nodeMap == {}
      ensures r.Some? ==> |r.value| == if count <= 0 then 0 else if count < |nodeMap| then count else |nodeMap|
      ensures r.Some? ==> forall i, j :: 0 <= i < j < |r.value| ==> r.value[i] != r.value[j]
      ensures r.Some? ==> forall n :: n in r.value ==> n in nodeMap
      ensures r.Some? ==> vnodes != [] && r.value <= Met(Round(vnodes, Home(vnodes, hash(key))))
      ensures r.Some? ==> Owns(Points(hash, nodeMap, virtualNodes), hash(key), vnodes[Home(vnodes, hash(key))])
      ensures r.Some? && count > 0 ==> r.value[0] == vnodes[Home(vnodes, hash(key))].node
    {
      if nodeMap == {} {
        return None;
      }
      PointsEmpty(hash, nodeMap, virtualNodes);
      var wanted := if count > |nodeMap| then |nodeMap| else count;
      ghost var p :| p in Points(hash, nodeMap, virtualNodes);
      assert p in multiset(vnodes);
      var startIdx := Search(vnodes, hash(key));
      if startIdx == |vnodes| {
        startIdx := 0;
      }
      StartOwns(vnodes, Points(hash, nodeMap, virtualNodes), hash(key), startIdx);
      var nodes := Walk(startIdx, wanted);
      TakenFromRound(hash, nodeMap, virtualNodes, vnodes, startIdx, nodes);
      r := Some(nodes);
    }

    /** The loop of GetNodes.  Its cut-off after two rounds is never reached. */
    method Walk(startIdx: nat, wanted: int) returns (nodes: seq<NodeId>)
      requires Valid() && startIdx < |vnodes| && wanted <= |nodeMap|
      ensures |nodes| == if wanted <= 0 then 0 else wanted
      ensures nodes <= Met(Round(vnodes, startIdx))
    {
      ghost var round := Round(vnodes, startIdx);
      RoundMeetsAll(hash, nodeMap, virtualNodes, vnodes, startIdx);
      var seen: set<NodeId> := {};
      nodes := [];
      var i := 0;
      while |nodes| < wanted
        invariant 0 <= i <= |vnodes| && |nodes| <= if wanted <= 0 then 0 else wanted
        invariant nodes == Met(round[..i]) && forall n :: n in seen <==> n in nodes
        invariant i == |vnodes| ==> nodes == Met(round)
        decreases |vnodes| - i
      {
        var idx := (startIdx + i) % |vnodes|;
        RoundAt(vnodes, startIdx, i);
        var node := vnodes[idx].node;
        assert round[..i + 1][..i] == round[..i];
        if node !in seen {
          seen := seen + {node};
          nodes := nodes + [node];
        }
        if i > |vnodes| * 2 {
          break;
        }
        i := i + 1;
        if i == |vnodes| { assert round[..i] == round; }
      }
      MetGrows(round, i);
    }
  }

  lemma OneMorePoint(hash: string -> nat, node: NodeId, i: nat)
    ensures multiset(PointsOf(hash, node, i + 1)) == multiset(PointsOf(hash, node, i)) + multiset{Point(hash, node, i)}
  {
    assert PointsOf(hash, node, i + 1) == PointsOf(hash, node, i) + {Point(hash, node, i)};
  }

  lemma PointsCount(hash: string -> nat, nodes: set<NodeId>, node: NodeId, v: nat)
    requires node !in nodes
    ensures multiset(Points(hash, nodes + {node}, v))
            == multiset(Points(hash, nodes, v)) + multiset(PointsOf(hash, node, v))
  {
    JoinedPoints(hash, nodes, node, v);
  }

  lemma RemainingPoints(hash: string -> nat, nodes: set<NodeId>, node: NodeId, v: nat, vs: seq<VirtualNode>)
    requires Sorted(vs) && multiset(vs) == multiset(Points(hash, nodes, v))
    ensures Sorted(Without(vs, node))
    ensures multiset(Without(vs, node)) == multiset(Points(hash, nodes - {node}, v))
  {
    WithoutSorted(vs, node);
    forall p ensures multiset(Without(vs, node))[p] == multiset(Points(hash, nodes - {node}, v))[p] {
      WithoutCounts(vs, node, p);
    }
  }

  lemma PointsEmpty(hash: string -> nat, nodes: set<NodeId>, v: nat)
    requires v > 0
    ensures Points(hash, nodes, v) == {} <==> nodes == {}
  {
    if n :| n in nodes { assert Point(hash, n, 0) in Points(hash, nodes, v); }
  }

  /** The search position, wrapped to the front, holds the owner. */
  lemma StartOwns(vs: seq<VirtualNode>, ps: set<VirtualNode>, h: nat, i: nat)
    requires Sorted(vs) && multiset(vs) == multiset(ps) && i < |vs|
    requires (forall k :: 0 <= k < i ==> vs[k].hash < h)
    requires vs[i].hash >= h || (i == 0 && forall k :: 0 <= k < |vs| ==> vs[k].hash < h)
    ensures Owns(ps, h, vs[i])
  {
    assert vs[i] in multiset(vs);
    forall w | w in ps ensures NotLater(h, vs[i], w) {
      assert w in multiset(vs);
      var k :| 0 <= k < |vs| && vs[k] == w;
    }
  }
}
