/** Finite directed graphs: paths, cycles and numberings that decrease along edges. */
module Graphs {
  import opened Lists

  type Node = string

  type Graph = map<Node, seq<Node>>

  /** An edge between two nodes of the graph; a successor may lie outside of it. */
  predicate Edge(g: Graph, a: Node, b: Node) {
    a in g && b in g && b in g[a]
  }

  predicate IsPath(g: Graph, p: seq<Node>) {
    && p != [] && p[0] in g
    && forall i :: 0 <= i < |p| - 1 ==> Edge(g, p[i], p[i + 1])
  }

  predicate Connects(g: Graph, p: seq<Node>, a: Node, b: Node) {
    IsPath(g, p) && p[0] == a && p[|p| - 1] == b
  }

  ghost predicate Reaches(g: Graph, a: Node, b: Node) {
    exists p :: Connects(g, p, a, b)
  }

  /** Refers to it, directly or through others. */
  ghost predicate RefersTo(g: Graph, a: Node, b: Node) {
    exists p :: Connects(g, p, a, b) && |p| > 1
  }

  ghost predicate Acyclic(g: Graph) {
    forall a :: a in g ==> !RefersTo(g, a, a)
  }

  lemma PathSnoc(g: Graph, p: seq<Node>, b: Node)
    requires IsPath(g, p) && Edge(g, p[|p| - 1], b)
    ensures IsPath(g, p + [b])
  {
    forall i | 0 <= i < |p + [b]| - 1
      ensures Edge(g, (p + [b])[i], (p + [b])[i + 1])
    {
    }
  }

  lemma PathSuffix(g: Graph, p: seq<Node>, i: nat)
    requires IsPath(g, p) && i < |p|
    ensures IsPath(g, p[i..])
  {
    if i > 0 {
      assert Edge(g, p[i - 1], p[i]);
    }
    forall j | 0 <= j < |p[i..]| - 1
      ensures Edge(g, p[i..][j], p[i..][j + 1])
    {
      assert Edge(g, p[i + j], p[i + j + 1]);
    }
  }

  /** An edge back into a path closes a cycle. */
  lemma BackEdgeIsCycle(g: Graph, stack: seq<Node>, b: Node)
    requires IsPath(g, stack) && b in stack && Edge(g, stack[|stack| - 1], b)
    ensures !Acyclic(g)
  {
    var i :| 0 <= i < |stack| && stack[i] == b;
    PathSuffix(g, stack, i);
    PathSnoc(g, stack[i..], b);
    assert Connects(g, stack[i..] + [b], b, b);
  }

  // ------------------------------------------------------------------
  // Numberings
  // ------------------------------------------------------------------

  /** Every edge leads to a smaller number. */
  ghost predicate Ranked(g: Graph, rank: map<Node, nat>) {
    && g.Keys <= rank.Keys
    && forall a, b :: Edge(g, a, b) ==> rank[b] < rank[a]
  }

  ghost predicate IsSink(g: Graph, a: Node) {
    a in g && forall b :: !Edge(g, a, b)
  }

  /** Walking on from a path without repetition ends at a node without successors. */
  lemma FindSink(g: Graph, p: seq<Node>) returns (a: Node)
    requires Acyclic(g) && IsPath(g, p)
    requires Elements(p) <= g.Keys
    requires Distinct(p)
    ensures IsSink(g, a)
    decreases |g| + 1 - |p|
  {
    DistinctFits(p, g.Keys);
    var last := p[|p| - 1];
    assert last in Elements(p);
    if b :| Edge(g, last, b) {
      if b in p {
        BackEdgeIsCycle(g, p, b);
      }
      PathSnoc(g, p, b);
      assert Elements(p + [b]) == Elements(p) + {b};
      DistinctFits(p + [b], g.Keys);
      a := FindSink(g, p + [b]);
    } else {
      a := last;
    }
  }

  lemma SubgraphPath(g: Graph, drop: Node, p: seq<Node>)
    requires IsPath(g - {drop}, p)
    ensures IsPath(g, p)
  {
    assert forall i :: 0 <= i < |p| - 1 ==> Edge(g - {drop}, p[i], p[i + 1]);
  }

  lemma SubgraphAcyclic(g: Graph, drop: Node)
    requires Acyclic(g)
    ensures Acyclic(g - {drop})
  {
    forall p | IsPath(g - {drop}, p)
      ensures IsPath(g, p)
    {
      SubgraphPath(g, drop, p);
    }
    assert forall a, p :: Connects(g - {drop}, p, a, a) ==> Connects(g, p, a, a);
  }

  /** A finite graph without cycles has a numbering. */
  lemma {:induction false} Numbering(g: Graph) returns (rank: map<Node, nat>)
    requires Acyclic(g)
    ensures Ranked(g, rank)
    decreases |g|
  {
    if g == map[] {
      rank := map[];
    } else {
      var start :| start in g;
      assert Elements([start]) == {start};
      var sink := FindSink(g, [start]);
      var h := g - {sink};
      SubgraphAcyclic(g, sink);
      assert h.Keys == g.Keys - {sink};
      var inner := Numbering(h);
      rank := (map x | x in inner :: inner[x] + 1)[sink := 0];
      forall a, b | Edge(g, a, b)
        ensures rank[b] < rank[a]
      {
        if b != sink {
          assert Edge(h, a, b);
        }
      }
    }
  }
}
