/**
  Finite directed graphs: having a topological rank is the same as having no closed walk.
  Used for the dependency-plus-hazard graph of a plan.
*/
module Graphs {
  type Node = string
  type Edge = (Node, Node)

  /** `rank` increases along every edge between the given nodes. */
  ghost predicate Ranks(nodes: set<Node>, edges: set<Edge>, rank: map<Node, nat>) {
    && nodes <= rank.Keys
    && forall l, r | (l, r) in edges && l in nodes && r in nodes :: rank[l] < rank[r]
  }

  ghost predicate Acyclic(nodes: set<Node>, edges: set<Edge>) {
    exists rank: map<Node, nat> :: Ranks(nodes, edges, rank)
  }

  predicate HasPredecessor(nodes: set<Node>, edges: set<Edge>, n: Node) {
    exists p | p in nodes :: (p, n) in edges
  }

  /** Every node of the set has a predecessor in the set: the state in which Kahn's loop gives up. */
  predicate Stuck(nodes: set<Node>, edges: set<Edge>) {
    nodes != {} && forall n {:trigger HasPredecessor(nodes, edges, n)} | n in nodes :: HasPredecessor(nodes, edges, n)
  }

  /** A walk of at least one edge that returns to its start. */
  ghost predicate ClosedWalk(nodes: set<Node>, edges: set<Edge>, walk: seq<Node>) {
    && |walk| >= 2 && walk[0] == walk[|walk| - 1]
    && (forall i | 0 <= i < |walk| :: walk[i] in nodes)
    && (forall i | 0 <= i < |walk| - 1 :: (walk[i], walk[i + 1]) in edges)
  }

  lemma {:induction false} RankGrowsAlongWalk(nodes: set<Node>, edges: set<Edge>, rank: map<Node, nat>,
      walk: seq<Node>, k: nat)
    requires Ranks(nodes, edges, rank)
    requires forall i | 0 <= i < |walk| :: walk[i] in nodes
    requires forall i | 0 <= i < |walk| - 1 :: (walk[i], walk[i + 1]) in edges
    requires 0 < k < |walk|
    ensures rank[walk[0]] < rank[walk[k]]
  {
    assert (walk[k - 1], walk[k]) in edges;
    if k > 1 { RankGrowsAlongWalk(nodes, edges, rank, walk, k - 1); }
  }

  /** A walk against the edges inside a stuck set, as long as wanted. */
  lemma {:induction false} StuckHasLongWalk(nodes: set<Node>, edges: set<Edge>, length: nat) returns (walk: seq<Node>)
    requires Stuck(nodes, edges)
    ensures |walk| == length + 1
    ensures forall i | 0 <= i < |walk| :: walk[i] in nodes
    ensures forall i | 0 <= i < |walk| - 1 :: (walk[i], walk[i + 1]) in edges
  {
    if length == 0 {
      var n :| n in nodes;
      walk := [n];
    } else {
      var rest := StuckHasLongWalk(nodes, edges, length - 1);
      assert HasPredecessor(nodes, edges, rest[0]);
      var p :| p in nodes && (p, rest[0]) in edges;
      walk := [p] + rest;
    }
  }

  /** Pigeonhole: a sequence longer than the set it draws from repeats an element. */
  lemma {:induction false} Repeats(nodes: set<Node>, walk: seq<Node>) returns (i: nat, j: nat)
    requires |walk| > |nodes|
    requires forall k | 0 <= k < |walk| :: walk[k] in nodes
    ensures i < j < |walk| && walk[i] == walk[j]
    decreases |walk|
  {
    if k :| 0 < k < |walk| && walk[k] == walk[0] {
      i, j := 0, k;
    } else {
      assert walk[0] in nodes;
      i, j := Repeats(nodes - {walk[0]}, walk[1..]);
      i, j := i + 1, j + 1;
    }
  }

  lemma {:induction false} StuckHasClosedWalk(nodes: set<Node>, edges: set<Edge>) returns (walk: seq<Node>)
    requires Stuck(nodes, edges)
    ensures ClosedWalk(nodes, edges, walk)
  {
    var long := StuckHasLongWalk(nodes, edges, |nodes|);
    var i, j := Repeats(nodes, long);
    walk := long[i..j + 1];
  }

  lemma {:induction false} ClosedWalkHasNoRank(nodes: set<Node>, edges: set<Edge>, walk: seq<Node>)
    requires ClosedWalk(nodes, edges, walk)
    ensures !Acyclic(nodes, edges)
  {
    forall rank: map<Node, nat> | Ranks(nodes, edges, rank)
      ensures false
    {
      RankGrowsAlongWalk(nodes, edges, rank, walk, |walk| - 1);
    }
  }

  lemma {:induction false} StuckHasNoRank(nodes: set<Node>, stuck: set<Node>, edges: set<Edge>)
    requires stuck <= nodes && Stuck(stuck, edges)
    ensures !Acyclic(nodes, edges)
  {
    var walk := StuckHasClosedWalk(stuck, edges);
    ClosedWalkHasNoRank(nodes, edges, walk);
  }

  /** Peel source nodes: either everything goes and is ranked, or a stuck set remains. */
  lemma {:induction false} RankOrStuck(nodes: set<Node>, edges: set<Edge>)
      returns (rank: map<Node, nat>, stuck: set<Node>)
    ensures stuck <= nodes
    ensures stuck == {} ==> Ranks(nodes, edges, rank)
    ensures stuck != {} ==> Stuck(stuck, edges)
  {
    rank, stuck := map[], {};
    if Stuck(nodes, edges) {
      stuck := nodes;
    } else if nodes != {} {
      var source :| source in nodes && !HasPredecessor(nodes, edges, source);
      var rest;
      rest, stuck := RankOrStuck(nodes - {source}, edges);
      rank := map n | n in nodes :: if n == source then 0 else if n in rest then rest[n] + 1 else 0;
    }
  }

  /** No topological rank exists exactly when some walk closes. */
  lemma {:induction false} AcyclicExactlyWithoutClosedWalk(nodes: set<Node>, edges: set<Edge>)
    ensures Acyclic(nodes, edges) <==> !(exists walk :: ClosedWalk(nodes, edges, walk))
  {
    forall walk | ClosedWalk(nodes, edges, walk)
      ensures !Acyclic(nodes, edges)
    {
      ClosedWalkHasNoRank(nodes, edges, walk);
    }
    var rank, stuck := RankOrStuck(nodes, edges);
    if stuck != {} {
      var walk := StuckHasClosedWalk(stuck, edges);
      assert ClosedWalk(nodes, edges, walk);
    }
  }
}
