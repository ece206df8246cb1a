/**
 When the extension of systems ends. The walk marks a system as processed only after its bases,
 so nothing stops it on a cycle. Here it is a function with a bound on the depth of its recursion:
 with enough depth it ends, from all systems in any order, exactly when the graph has no cycle.
 */
module ExtensionTermination {
  import opened Values
  import opened Graphs
  import opened Lists

  /** Every base is a node of the graph, as in the graph of all names. */
  predicate Closed(g: Graph) {
    forall n, i :: n in g && 0 <= i < |g[n]| ==> g[n][i] in g
  }

  /** The processed systems after extending `n`, or `None` if the depth does not suffice. */
  function Walk(g: Graph, depth: nat, processed: set<Node>, n: Node): Option<set<Node>>
    requires Closed(g) && n in g
    decreases depth, |g[n]| + 1
  {
    if depth == 0 then None
    else
      match WalkBases(g, depth, processed, n, |g[n]|)
      case None => None
      case Some(p) => Some(p + {n})
  }

  /** The first `i` bases of `n`, in order. */
  function WalkBases(g: Graph, depth: nat, processed: set<Node>, n: Node, i: nat): Option<set<Node>>
    requires Closed(g) && n in g && i <= |g[n]| && 0 < depth
    decreases depth, i
  {
    if i == 0 then Some(processed)
    else
      match WalkBases(g, depth, processed, n, i - 1)
      case None => None
      case Some(p) => if g[n][i - 1] in p then Some(p) else Walk(g, depth - 1, p, g[n][i - 1])
  }

  // ------------------------------------------------------------------
  // Without cycles the walk ends
  // ------------------------------------------------------------------

  lemma {:induction false} EnoughDepth(g: Graph, rank: map<Node, nat>, depth: nat, processed: set<Node>, n: Node)
    requires Closed(g) && Ranked(g, rank) && n in g && rank[n] < depth
    ensures Walk(g, depth, processed, n).Some?
    decreases depth, |g[n]| + 1
  {
    EnoughDepthBases(g, rank, depth, processed, n, |g[n]|);
  }

  lemma {:induction false} EnoughDepthBases(g: Graph, rank: map<Node, nat>, depth: nat,
                                            processed: set<Node>, n: Node, i: nat)
    requires Closed(g) && Ranked(g, rank) && n in g && i <= |g[n]| && rank[n] < depth
    ensures WalkBases(g, depth, processed, n, i).Some?
    decreases depth, i
  {
    if i == 0 {
    } else {
      EnoughDepthBases(g, rank, depth, processed, n, i - 1);
      var p := WalkBases(g, depth, processed, n, i - 1).value;
      assert Edge(g, n, g[n][i - 1]);
      if g[n][i - 1] !in p {
        EnoughDepth(g, rank, depth - 1, p, g[n][i - 1]);
      }
    }
  }

  // ------------------------------------------------------------------
  // Where the walk ends there is no cycle
  // ------------------------------------------------------------------

  /** All chains of bases from `n` are shorter than `k`. */
  ghost predicate Grounded(g: Graph, n: Node, k: nat)
    decreases k
  {
    k > 0 && n in g && forall i :: 0 <= i < |g[n]| ==> Grounded(g, g[n][i], k - 1)
  }

  ghost predicate Finite(g: Graph, n: Node) {
    exists k :: Grounded(g, n, k)
  }

  lemma {:induction false} GroundedMore(g: Graph, n: Node, k: nat, more: nat)
    requires Grounded(g, n, k) && k <= more
    ensures Grounded(g, n, more)
    decreases k
  {
    forall i | 0 <= i < |g[n]|
      ensures Grounded(g, g[n][i], more - 1)
    {
      GroundedMore(g, g[n][i], k - 1, more - 1);
    }
  }

  /** If all bases are grounded, one bound serves them all. */
  lemma {:induction false} OneBound(g: Graph, n: Node, i: nat) returns (k: nat)
    requires n in g && i <= |g[n]|
    requires forall j :: 0 <= j < i ==> Finite(g, g[n][j])
    ensures forall j :: 0 <= j < i ==> Grounded(g, g[n][j], k)
    decreases i
  {
    if i == 0 {
      k := 0;
    } else {
      var a := OneBound(g, n, i - 1);
      var b :| Grounded(g, g[n][i - 1], b);
      k := a + b;
      GroundedMore(g, g[n][i - 1], b, k);
      forall j | 0 <= j < i - 1
        ensures Grounded(g, g[n][j], k)
      {
        GroundedMore(g, g[n][j], a, k);
      }
    }
  }

  ghost predicate AllFinite(g: Graph, s: set<Node>) {
    forall x :: x in s ==> Finite(g, x)
  }

  lemma {:induction false} WalkIsFinite(g: Graph, depth: nat, processed: set<Node>, n: Node)
    requires Closed(g) && n in g && AllFinite(g, processed)
    requires Walk(g, depth, processed, n).Some?
    ensures n in Walk(g, depth, processed, n).value && AllFinite(g, Walk(g, depth, processed, n).value)
    decreases depth, |g[n]| + 1
  {
    WalkBasesFinite(g, depth, processed, n, |g[n]|);
    var k := OneBound(g, n, |g[n]|);
    assert Grounded(g, n, k + 1);
  }

  lemma {:induction false} WalkBasesFinite(g: Graph, depth: nat, processed: set<Node>, n: Node, i: nat)
    requires Closed(g) && n in g && i <= |g[n]| && 0 < depth && AllFinite(g, processed)
    requires WalkBases(g, depth, processed, n, i).Some?
    ensures AllFinite(g, WalkBases(g, depth, processed, n, i).value)
    ensures forall j :: 0 <= j < i ==> Finite(g, g[n][j])
    decreases depth, i
  {
    if i == 0 {
    } else {
      WalkBasesFinite(g, depth, processed, n, i - 1);
      var p := WalkBases(g, depth, processed, n, i - 1).value;
      if g[n][i - 1] !in p {
        WalkIsFinite(g, depth - 1, p, g[n][i - 1]);
      }
    }
  }

  /** Along a path the bound falls. */
  lemma {:induction false} GroundedPath(g: Graph, p: seq<Node>, k: nat, j: nat)
    requires IsPath(g, p) && j < |p| && Grounded(g, p[0], k)
    ensures j < k && Grounded(g, p[j], k - j)
    decreases j
  {
    if j > 0 {
      GroundedPath(g, p, k, j - 1);
      assert Edge(g, p[j - 1], p[j]);
      var i :| 0 <= i < |g[p[j - 1]]| && g[p[j - 1]][i] == p[j];
      assert Grounded(g, g[p[j - 1]][i], k - (j - 1) - 1);
    }
  }

  lemma {:induction false} CycleIsNotGrounded(g: Graph, p: seq<Node>, k: nat)
    requires IsPath(g, p) && |p| > 1 && p[0] == p[|p| - 1]
    ensures !Grounded(g, p[0], k)
    decreases k
  {
    if Grounded(g, p[0], k) {
      var n := |p| - 1;
      GroundedPath(g, p, k, n);
      CycleIsNotGrounded(g, p, k - n);
    }
  }

  // ------------------------------------------------------------------
  // The range over all systems
  // ------------------------------------------------------------------

  /** The systems in the order in which the range yields them; those processed are skipped. */
  function WalkAll(g: Graph, depth: nat, order: seq<Node>): Option<set<Node>>
    requires Closed(g) && Elements(order) <= g.Keys
  {
    if order == [] then Some({})
    else
      var k := |order| - 1;
      ElementsSnoc(order[..k], order[k]);
      match WalkAll(g, depth, order[..k])
      case None => None
      case Some(p) => if order[k] in p then Some(p) else Walk(g, depth, p, order[k])
  }

  lemma ElementsSnoc(s: seq<Node>, x: Node)
    ensures Elements(s + [x]) == Elements(s) + {x}
    ensures (s + [x])[..|s|] == s
  {
  }

  lemma {:induction false} EnoughForAll(g: Graph, rank: map<Node, nat>, depth: nat, order: seq<Node>)
    requires Closed(g) && Ranked(g, rank) && Elements(order) <= g.Keys
    requires forall n :: n in g ==> rank[n] < depth
    ensures WalkAll(g, depth, order).Some?
    decreases |order|
  {
    if order != [] {
      var k := |order| - 1;
      assert order == order[..k] + [order[k]];
      ElementsSnoc(order[..k], order[k]);
      EnoughForAll(g, rank, depth, order[..k]);
      var p := WalkAll(g, depth, order[..k]).value;
      if order[k] !in p {
        EnoughDepth(g, rank, depth, p, order[k]);
      }
    }
  }

  lemma {:induction false} AllIsFinite(g: Graph, depth: nat, order: seq<Node>)
    requires Closed(g) && Elements(order) <= g.Keys && WalkAll(g, depth, order).Some?
    ensures Elements(order) <= WalkAll(g, depth, order).value
    ensures AllFinite(g, WalkAll(g, depth, order).value)
    decreases |order|
  {
    hide Elements;
    if order == [] {
      NoElements();
    } else {
      var k := |order| - 1;
      assert order == order[..k] + [order[k]];
      ElementsSnoc(order[..k], order[k]);
      AllIsFinite(g, depth, order[..k]);
      var p := WalkAll(g, depth, order[..k]).value;
      if order[k] !in p {
        WalkGrows(g, depth, p, order[k]);
        WalkIsFinite(g, depth, p, order[k]);
      }
    }
  }

  lemma NoElements()
    ensures Elements<Node>([]) == {}
  {
  }

  /** What is processed stays so. */
  lemma {:induction false} WalkGrows(g: Graph, depth: nat, processed: set<Node>, n: Node)
    requires Closed(g) && n in g && Walk(g, depth, processed, n).Some?
    ensures processed <= Walk(g, depth, processed, n).value
    decreases depth, |g[n]| + 1
  {
    WalkBasesGrow(g, depth, processed, n, |g[n]|);
  }

  lemma {:induction false} WalkBasesGrow(g: Graph, depth: nat, processed: set<Node>, n: Node, i: nat)
    requires Closed(g) && n in g && i <= |g[n]| && 0 < depth && WalkBases(g, depth, processed, n, i).Some?
    ensures processed <= WalkBases(g, depth, processed, n, i).value
    decreases depth, i
  {
    if i > 0 {
      WalkBasesGrow(g, depth, processed, n, i - 1);
      var p := WalkBases(g, depth, processed, n, i - 1).value;
      if g[n][i - 1] !in p {
        WalkGrows(g, depth - 1, p, g[n][i - 1]);
      }
    }
  }

  /** More depth does not change what the walk does. */
  lemma {:induction false} WalkDeeper(g: Graph, depth: nat, more: nat, processed: set<Node>, n: Node)
    requires Closed(g) && n in g && depth <= more && Walk(g, depth, processed, n).Some?
    ensures Walk(g, more, processed, n) == Walk(g, depth, processed, n)
    decreases depth, |g[n]| + 1
  {
    WalkBasesDeeper(g, depth, more, processed, n, |g[n]|);
  }

  lemma {:induction false} WalkBasesDeeper(g: Graph, depth: nat, more: nat, processed: set<Node>, n: Node, i: nat)
    requires Closed(g) && n in g && i <= |g[n]| && 0 < depth <= more && WalkBases(g, depth, processed, n, i).Some?
    ensures WalkBases(g, more, processed, n, i) == WalkBases(g, depth, processed, n, i)
    decreases depth, i
  {
    if i > 0 {
      WalkBasesDeeper(g, depth, more, processed, n, i - 1);
      var p := WalkBases(g, depth, processed, n, i - 1).value;
      if g[n][i - 1] !in p {
        WalkDeeper(g, depth - 1, more - 1, p, g[n][i - 1]);
      }
    }
  }

  lemma {:induction false} WalkAllDeeper(g: Graph, depth: nat, more: nat, order: seq<Node>)
    requires Closed(g) && Elements(order) <= g.Keys && depth <= more && WalkAll(g, depth, order).Some?
    ensures WalkAll(g, more, order) == WalkAll(g, depth, order)
    decreases |order|
  {
    if order != [] {
      var k := |order| - 1;
      assert order == order[..k] + [order[k]];
      ElementsSnoc(order[..k], order[k]);
      WalkAllDeeper(g, depth, more, order[..k]);
      var p := WalkAll(g, depth, order[..k]).value;
      if order[k] !in p {
        WalkDeeper(g, depth, more, p, order[k]);
      }
    }
  }

  /** The range ends, given enough depth. */
  ghost predicate Ends(g: Graph, order: seq<Node>)
    requires Closed(g) && Elements(order) <= g.Keys
  {
    exists depth :: WalkAll(g, depth, order).Some?
  }

  lemma {:induction false} Above(s: set<Node>, rank: map<Node, nat>) returns (depth: nat)
    requires s <= rank.Keys
    ensures forall n :: n in s ==> rank[n] < depth
    decreases s
  {
    depth := 0;
    if n :| n in s {
      depth := Above(s - {n}, rank);
      depth := depth + rank[n] + 1;
    }
  }

  /**
   From whatever systems the range starts, if all with bases are among them, and in whatever
   order: it ends if and only if the graph has no cycle.
   */
  lemma EndsIffAcyclic(g: Graph, order: seq<Node>)
    requires Closed(g) && Elements(order) <= g.Keys
    requires forall n :: n in g && g[n] != [] ==> n in Elements(order)
    ensures Ends(g, order) <==> Acyclic(g)
  {
    hide Elements;
    if Acyclic(g) {
      var rank := Numbering(g);
      var depth := Above(g.Keys, rank);
      EnoughForAll(g, rank, depth, order);
    } else {
      var a :| a in g && RefersTo(g, a, a);
      var p :| Connects(g, p, a, a) && |p| > 1;
      assert Edge(g, p[0], p[1]);
      if Ends(g, order) {
        var depth :| WalkAll(g, depth, order).Some?;
        AllIsFinite(g, depth, order);
        var k :| Grounded(g, a, k);
        CycleIsNotGrounded(g, p, k);
      }
    }
  }
}
