/**
 Assembling a configuration from the repositories it refers to: a depth-first walk that merges
 each repository after those it refers to. Repositories may refer to each other in cycles and
 to repositories that could not be loaded.
 */
module RepoAssembly {
  import opened Values
  import opened Graphs
  import opened Lists

  type Repo = Node

  /** The merges, in order, applied to a configuration. */
  function Fold(merge: (Value, Value) -> Value, data: map<Repo, Value>, start: Value, order: seq<Repo>): Value
    requires forall i :: 0 <= i < |order| ==> order[i] in data
  {
    if order == [] then start
    else merge(Fold(merge, data, start, order[..|order| - 1]), data[order[|order| - 1]])
  }

  /** Merged at most once each, only loaded ones, and nothing a merged one refers to is missed. */
  ghost predicate Inv(g: Graph, root: Repo, listed: set<Repo>, merged: seq<Repo>) {
    && listed <= g.Keys
    && (forall i :: 0 <= i < |merged| ==> merged[i] in listed)
    && Distinct(merged)
    && (forall r :: r in listed ==> Reaches(g, root, r))
    && (forall i, b :: 0 <= i < |merged| && Edge(g, merged[i], b) ==> b in listed)
  }

  /** Each one is merged after those it refers to. */
  ghost predicate Ordered(g: Graph, merged: seq<Repo>) {
    forall i, b :: 0 <= i < |merged| && Edge(g, merged[i], b) ==> b in merged[..i]
  }

  /** The repositories whose assembly has begun but not ended. */
  function Open(listed: set<Repo>, merged: seq<Repo>): set<Repo> {
    listed - Elements(merged)
  }

  lemma BeginRepo(g: Graph, root: Repo, listed: set<Repo>, merged: seq<Repo>, stack: seq<Repo>, c: Repo)
    requires Inv(g, root, listed, merged) && c in g && c !in listed
    requires IsPath(g, stack + [c]) && (stack + [c])[0] == root
    requires Open(listed, merged) == Elements(stack)
    ensures Inv(g, root, listed + {c}, merged)
    ensures Open(listed + {c}, merged) == Elements(stack + [c])
    ensures c !in stack
  {
    assert Connects(g, stack + [c], root, c);
    assert c in stack ==> c in Elements(stack);
    assert Elements(stack + [c]) == Elements(stack) + {c};
  }

  lemma EndRepo(g: Graph, root: Repo, listed: set<Repo>, merged: seq<Repo>, stack: seq<Repo>, c: Repo)
    requires Inv(g, root, listed, merged) && c in listed && c !in stack
    requires IsPath(g, stack + [c])
    requires Open(listed, merged) == Elements(stack + [c])
    requires forall b :: Edge(g, c, b) ==> b in listed
    ensures Inv(g, root, listed, merged + [c])
    ensures Open(listed, merged + [c]) == Elements(stack)
  {
    assert c in stack + [c] && c in Open(listed, merged);
    assert Elements(stack + [c]) == Elements(stack) + {c};
    assert c !in Elements(stack);
  }

  /** Without cycles, what `c` refers to has been merged by now. */
  lemma EndOrdered(g: Graph, listed: set<Repo>, merged: seq<Repo>, stack: seq<Repo>, c: Repo)
    requires Acyclic(g) && Ordered(g, merged)
    requires IsPath(g, stack + [c])
    requires Open(listed, merged) == Elements(stack + [c])
    requires forall b :: Edge(g, c, b) ==> b in listed
    ensures Ordered(g, merged + [c])
  {
    var path := stack + [c];
    forall b | Edge(g, c, b)
      ensures b in merged
    {
      if b !in merged {
        assert b in Elements(path);
        BackEdgeIsCycle(g, path, b);
      }
    }
    forall i, b | 0 <= i < |merged + [c]| && Edge(g, (merged + [c])[i], b)
      ensures b in (merged + [c])[..i]
    {
      assert (merged + [c])[..i] == merged[..i];
    }
  }

  /** Each repository's data is merged over what was assembled before it. */
  ghost predicate IsFold(merge: (Value, Value) -> Value, data: map<Repo, Value>, merged: seq<Repo>, result: Value) {
    exists at: seq<Value> :: IsFoldAt(merge, data, merged, at) && result == at[|merged|]
  }

  ghost predicate IsFoldAt(merge: (Value, Value) -> Value, data: map<Repo, Value>, merged: seq<Repo>,
                           at: seq<Value>) {
    && |at| == |merged| + 1 && at[0] == Nil
    && forall i :: 0 <= i < |merged| ==> merged[i] in data && at[i + 1] == merge(at[i], data[merged[i]])
  }

  lemma {:induction false} FoldIsFold(merge: (Value, Value) -> Value, data: map<Repo, Value>, merged: seq<Repo>)
    returns (at: seq<Value>)
    requires forall i :: 0 <= i < |merged| ==> merged[i] in data
    ensures IsFoldAt(merge, data, merged, at) && Fold(merge, data, Nil, merged) == at[|merged|]
    decreases |merged|
  {
    if merged == [] {
      at := [Nil];
    } else {
      var n := |merged| - 1;
      var front := FoldIsFold(merge, data, merged[..n]);
      at := front + [merge(front[n], data[merged[n]])];
    }
  }

  lemma Folded(merge: (Value, Value) -> Value, data: map<Repo, Value>, merged: seq<Repo>)
    requires forall i :: 0 <= i < |merged| ==> merged[i] in data
    ensures IsFold(merge, data, merged, Fold(merge, data, Nil, merged))
  {
    var at := FoldIsFold(merge, data, merged);
  }

  class Assembly {
    const loaded: Graph
    const data: map<Repo, Value>
    const merge: (Value, Value) -> Value
    var listed: set<Repo>
    var assembled: Value
    ghost var merged: seq<Repo>

    ghost predicate Valid(root: Repo)
      reads this
    {
      && loaded.Keys <= data.Keys
      && Inv(loaded, root, listed, merged)
      && (Acyclic(loaded) ==> Ordered(loaded, merged))
      && assembled == Fold(merge, data, Nil, merged)
    }

    constructor (loaded: Graph, data: map<Repo, Value>, merge: (Value, Value) -> Value)
      requires loaded.Keys <= data.Keys
      ensures this.loaded == loaded && this.data == data && this.merge == merge
      ensures forall root :: Valid(root)
      ensures listed == {} && merged == []
    {
      this.loaded, this.data, this.merge := loaded, data, merge;
      listed, merged, assembled := {}, [], Nil;
    }

    /** Assembles `c`, reached from `root` through the repositories on the stack. */
    method Assemble(c: Repo, ghost root: Repo, ghost stack: seq<Repo>)
      requires Valid(root)
      requires c in loaded && c !in listed
      requires IsPath(loaded, stack + [c]) && (stack + [c])[0] == root
      requires Open(listed, merged) == Elements(stack)
      modifies this
      ensures Valid(root)
      ensures old(listed) + {c} <= listed
      ensures Open(listed, merged) == Elements(stack)
      decreases loaded.Keys - listed
    {
      hide Inv, Ordered, Open, Elements, Acyclic;
      BeginRepo(loaded, root, listed, merged, stack, c);
      Bounded(loaded, root, listed, merged);
      listed := listed + {c};
      var i := 0;
      while i < |loaded[c]|
        invariant 0 <= i <= |loaded[c]|
        invariant Valid(root)
        invariant old(listed) + {c} <= listed
        invariant Open(listed, merged) == Elements(stack + [c])
        invariant forall k :: 0 <= k < i && loaded[c][k] in loaded ==> loaded[c][k] in listed
      {
        var repo := loaded[c][i];
        if repo !in listed {
          if repo in loaded {
            PathSnoc(loaded, stack + [c], repo);
            Assemble(repo, root, stack + [c]);
          }
        }
        i := i + 1;
      }
      EndRepo(loaded, root, listed, merged, stack, c);
      if Acyclic(loaded) {
        EndOrdered(loaded, listed, merged, stack, c);
      }
      Bounded(loaded, root, listed, merged);
      assembled := merge(assembled, data[c]);
      ghost var before := merged;
      merged := merged + [c];
      assert merged[..|before|] == before;
    }

    /** The whole configuration. */
    method AssembleAll(init: Repo)
      requires Valid(init) && listed == {} && merged == []
      requires init in loaded
      modifies this
      ensures Valid(init) && IsFold(merge, data, merged, assembled)
      ensures Distinct(merged)
      ensures forall r :: r in merged <==> Reaches(loaded, init, r)
      ensures listed == Elements(merged)
      ensures Acyclic(loaded) ==>
                forall i, b :: 0 <= i < |merged| && RefersTo(loaded, merged[i], b) ==> b in merged[..i]
    {
      hide Fold, IsFold;
      assert [] + [init] == [init];
      assert Open(listed, merged) == Elements([]);
      Assemble(init, init, []);
      Bounded(loaded, init, listed, merged);
      Folded(merge, data, merged);
      assert forall r :: r in listed ==> r in merged by {
        assert forall r :: r in listed && r !in merged ==> r in Open(listed, merged);
      }
      forall r | Reaches(loaded, init, r)
        ensures r in merged
      {
        var p :| Connects(loaded, p, init, r);
        ReachedAreMerged(loaded, init, listed, merged, p);
      }
      if Acyclic(loaded) {
        forall i, b | 0 <= i < |merged| && RefersTo(loaded, merged[i], b)
          ensures b in merged[..i]
        {
          var p :| Connects(loaded, p, merged[i], b) && |p| > 1;
          ReferredAreEarlier(loaded, merged, p, i);
        }
      }
    }
  }

  lemma Bounded(g: Graph, root: Repo, listed: set<Repo>, merged: seq<Repo>)
    requires Inv(g, root, listed, merged)
    ensures listed <= g.Keys && forall i :: 0 <= i < |merged| ==> merged[i] in g
  {
  }

  lemma {:induction false} ReachedAreMerged(g: Graph, root: Repo, listed: set<Repo>, merged: seq<Repo>, p: seq<Repo>)
    requires Inv(g, root, listed, merged) && Elements(merged) == listed
    requires IsPath(g, p) && p[0] in listed
    ensures p[|p| - 1] in merged
    decreases |p|
  {
    if |p| == 1 {
      assert p[0] in Elements(merged);
    } else {
      var n := |p| - 1;
      ReachedAreMerged(g, root, listed, merged, p[..n]);
      assert Edge(g, p[n - 1], p[n]);
      assert p[n] in Elements(merged);
    }
  }

  /** Along a path of references, each repository was merged before the one that leads to it. */
  lemma {:induction false} ReferredAreEarlier(g: Graph, merged: seq<Repo>, p: seq<Repo>, i: nat)
    requires Ordered(g, merged) && IsPath(g, p) && |p| > 1
    requires i < |merged| && p[0] == merged[i]
    ensures p[|p| - 1] in merged[..i]
    decreases |p|
  {
    assert Edge(g, p[0], p[1]);
    var j :| 0 <= j < i && merged[j] == p[1];
    if |p| > 2 {
      PathSuffix(g, p, 1);
      ReferredAreEarlier(g, merged, p[1..], j);
    }
  }
}
