/**
 Systems extend other systems. Extending all of them is a memoised walk over the `extends`
 graph, started from the systems in the arbitrary order of a map that grows meanwhile.

 A system is an opaque value. Its `extends` entries are given already split into the base's
 name and the key it is nested under, which is empty when the base is merged in place.
 */
module SystemExtension {
  import opened Values
  import opened Graphs
  import opened Lists
  import opened ExtensionTermination

  datatype Extend = Extend(base: string, subKey: string)

  /** What the program does with systems; `zero` is the system that is not there. */
  datatype Library = Library(
    extends_: Value -> seq<Extend>,
    merge: (Value, Value) -> Value,
    addSub: (Value, Value, string) -> Value,
    zero: Value)

  type Systems = map<string, Value>

  function Lookup(lib: Library, sys: Systems, n: string): Value {
    if n in sys then sys[n] else lib.zero
  }

  function ExtendsOf(lib: Library, sys: Systems, n: string): seq<Extend> {
    lib.extends_(Lookup(lib, sys, n))
  }

  /** All systems, and all bases mentioned, defined or not. */
  function Names(lib: Library, sys: Systems): set<string> {
    sys.Keys + (set n, i | n in sys && 0 <= i < |ExtendsOf(lib, sys, n)| :: ExtendsOf(lib, sys, n)[i].base)
  }

  function BaseNames(es: seq<Extend>): (r: seq<string>)
    ensures |r| == |es| && forall i :: 0 <= i < |es| ==> r[i] == es[i].base
  {
    seq(|es|, i requires 0 <= i < |es| => es[i].base)
  }

  function ExtendsGraph(lib: Library, sys: Systems): Graph {
    map n | n in Names(lib, sys) :: BaseNames(ExtendsOf(lib, sys, n))
  }

  ghost predicate Ordered(lib: Library, sys: Systems, rank: map<Node, nat>) {
    lib.extends_(lib.zero) == [] && Ranked(ExtendsGraph(lib, sys), rank)
  }

  lemma BaseIsSmaller(lib: Library, sys: Systems, rank: map<Node, nat>, n: string, i: nat)
    requires Ordered(lib, sys, rank) && n in Names(lib, sys) && i < |ExtendsOf(lib, sys, n)|
    ensures var b := ExtendsOf(lib, sys, n)[i].base;
            b in Names(lib, sys) && n in rank && b in rank && rank[b] < rank[n]
  {
    var es := ExtendsOf(lib, sys, n);
    assert n in sys;
    assert es[i].base in Names(lib, sys);
    assert BaseNames(es)[i] == es[i].base;
    assert Edge(ExtendsGraph(lib, sys), n, es[i].base);
  }

  // ------------------------------------------------------------------
  // The recursive definition
  // ------------------------------------------------------------------

  /** A system: its bases in list order, merged or nested, and then its own data. */
  ghost function Extended(lib: Library, sys: Systems, rank: map<Node, nat>, n: string): Value
    requires Ordered(lib, sys, rank) && n in Names(lib, sys)
    decreases rank[n], |ExtendsOf(lib, sys, n)| + 1
  {
    lib.merge(WithBases(lib, sys, rank, n, |ExtendsOf(lib, sys, n)|), Lookup(lib, sys, n))
  }

  ghost function WithBases(lib: Library, sys: Systems, rank: map<Node, nat>, n: string, i: nat): Value
    requires Ordered(lib, sys, rank) && n in Names(lib, sys) && i <= |ExtendsOf(lib, sys, n)|
    decreases rank[n], i
  {
    if i == 0 then lib.zero
    else
      var e := ExtendsOf(lib, sys, n)[i - 1];
      BaseIsSmaller(lib, sys, rank, n, i - 1);
      AddBase(lib, WithBases(lib, sys, rank, n, i - 1), Extended(lib, sys, rank, e.base), e.subKey)
  }

  function AddBase(lib: Library, merged: Value, base: Value, subKey: string): Value {
    if subKey == "" then lib.merge(merged, base) else lib.addSub(merged, base, subKey)
  }

  /** The definition does not depend on the numbering used to see that it is well-founded. */
  lemma {:induction false} RankDoesNotMatter(lib: Library, sys: Systems, r: map<Node, nat>, q: map<Node, nat>,
                                             n: string)
    requires Ordered(lib, sys, r) && Ordered(lib, sys, q) && n in Names(lib, sys)
    ensures Extended(lib, sys, r, n) == Extended(lib, sys, q, n)
    decreases r[n], |ExtendsOf(lib, sys, n)| + 1
  {
    BasesSame(lib, sys, r, q, n, |ExtendsOf(lib, sys, n)|);
  }

  lemma {:induction false} BasesSame(lib: Library, sys: Systems, r: map<Node, nat>, q: map<Node, nat>,
                                     n: string, i: nat)
    requires Ordered(lib, sys, r) && Ordered(lib, sys, q) && n in Names(lib, sys) && i <= |ExtendsOf(lib, sys, n)|
    ensures WithBases(lib, sys, r, n, i) == WithBases(lib, sys, q, n, i)
    decreases r[n], i
  {
    if i == 0 {
    } else {
      BaseIsSmaller(lib, sys, r, n, i - 1);
      BasesSame(lib, sys, r, q, n, i - 1);
      RankDoesNotMatter(lib, sys, r, q, ExtendsOf(lib, sys, n)[i - 1].base);
    }
  }

  // ------------------------------------------------------------------
  // The extended systems as a solution of equations
  // ------------------------------------------------------------------

  /** Bases are taken in order: a plain one is merged in place, one with a key is nested under it. */
  ghost predicate IsChain(lib: Library, values: Systems, es: seq<Extend>, acc: seq<Value>) {
    && |acc| == |es| + 1 && acc[0] == lib.zero
    && forall i :: 0 <= i < |es| ==>
         && es[i].base in values
         && acc[i + 1] == if es[i].subKey == "" then lib.merge(acc[i], values[es[i].base])
                          else lib.addSub(acc[i], values[es[i].base], es[i].subKey)
  }

  /** A system is its extended bases with its own data on top. */
  ghost predicate IsBuilt(lib: Library, sys: Systems, values: Systems, n: string) {
    && n in values
    && exists acc :: IsChain(lib, values, ExtendsOf(lib, sys, n), acc)
                     && values[n] == lib.merge(acc[|acc| - 1], if n in sys then sys[n] else lib.zero)
  }

  lemma ExtendedIsBuilt(lib: Library, sys: Systems, rank: map<Node, nat>, values: Systems, n: string)
    requires Ordered(lib, sys, rank) && n in Names(lib, sys) && values.Keys == Names(lib, sys)
    requires forall x :: x in values ==> values[x] == Extended(lib, sys, rank, x)
    ensures IsBuilt(lib, sys, values, n)
  {
    hide Names, Extended, WithBases;
    var es := ExtendsOf(lib, sys, n);
    NoBases(lib, sys, rank, n);
    TopMerge(lib, sys, rank, n);
    var acc := seq(|es| + 1, i requires 0 <= i < |es| + 1 => WithBases(lib, sys, rank, n, i));
    forall i | 0 <= i < |es|
      ensures es[i].base in values
      ensures acc[i + 1] == if es[i].subKey == "" then lib.merge(acc[i], values[es[i].base])
                            else lib.addSub(acc[i], values[es[i].base], es[i].subKey)
    {
      BasesNext(lib, sys, rank, n, i);
    }
    assert IsChain(lib, values, es, acc);
  }

  lemma TopMerge(lib: Library, sys: Systems, rank: map<Node, nat>, n: string)
    requires Ordered(lib, sys, rank) && n in Names(lib, sys)
    ensures Extended(lib, sys, rank, n)
            == lib.merge(WithBases(lib, sys, rank, n, |ExtendsOf(lib, sys, n)|),
                         if n in sys then sys[n] else lib.zero)
  {
  }

  ghost predicate AllBuilt(lib: Library, sys: Systems, values: Systems) {
    values.Keys == Names(lib, sys) && forall n :: n in values ==> IsBuilt(lib, sys, values, n)
  }

  lemma {:induction false} SameChain(lib: Library, v: Systems, w: Systems, es: seq<Extend>,
                                     a: seq<Value>, b: seq<Value>, i: nat)
    requires IsChain(lib, v, es, a) && IsChain(lib, w, es, b) && i <= |es|
    requires forall k :: 0 <= k < |es| ==> v[es[k].base] == w[es[k].base]
    ensures a[i] == b[i]
    decreases i
  {
    if i > 0 {
      SameChain(lib, v, w, es, a, b, i - 1);
    }
  }

  lemma {:induction false} SameSolution(lib: Library, sys: Systems, rank: map<Node, nat>, v: Systems, w: Systems,
                                        n: string)
    requires Ordered(lib, sys, rank) && AllBuilt(lib, sys, v) && AllBuilt(lib, sys, w) && n in Names(lib, sys)
    ensures v[n] == w[n]
    decreases rank[n]
  {
    hide Names;
    var es := ExtendsOf(lib, sys, n);
    assert IsBuilt(lib, sys, v, n) && IsBuilt(lib, sys, w, n);
    var a :| IsChain(lib, v, es, a) && v[n] == lib.merge(a[|a| - 1], if n in sys then sys[n] else lib.zero);
    var b :| IsChain(lib, w, es, b) && w[n] == lib.merge(b[|b| - 1], if n in sys then sys[n] else lib.zero);
    forall k | 0 <= k < |es|
      ensures v[es[k].base] == w[es[k].base]
    {
      BaseIsSmaller(lib, sys, rank, n, k);
      SameSolution(lib, sys, rank, v, w, es[k].base);
    }
    SameChain(lib, v, w, es, a, b, |es|);
  }

  /** Without cycles the equations have one solution. */
  lemma OneSolution(lib: Library, sys: Systems, v: Systems, w: Systems)
    requires lib.extends_(lib.zero) == [] && Acyclic(ExtendsGraph(lib, sys))
    requires AllBuilt(lib, sys, v) && AllBuilt(lib, sys, w)
    ensures v == w
  {
    hide Names, IsBuilt;
    var rank := Numbering(ExtendsGraph(lib, sys));
    forall n | n in v
      ensures v[n] == w[n]
    {
      SameSolution(lib, sys, rank, v, w, n);
    }
  }

  /** Where no entry has a key, it does not matter how systems are nested. */
  lemma NestingDoesNotMatter(lib: Library, other: Library, sys: Systems, values: Systems, n: string)
    requires other == lib.(addSub := other.addSub)
    requires forall i :: 0 <= i < |ExtendsOf(lib, sys, n)| ==> ExtendsOf(lib, sys, n)[i].subKey == ""
    ensures IsBuilt(lib, sys, values, n) <==> IsBuilt(other, sys, values, n)
  {
    var es := ExtendsOf(lib, sys, n);
    forall acc
      ensures IsChain(lib, values, es, acc) <==> IsChain(other, values, es, acc)
    {
    }
  }

  /** Where every entry has a key, it does not matter for what a system takes over how systems are merged. */
  lemma MergingDoesNotMatter(lib: Library, other: Library, values: Systems, es: seq<Extend>, acc: seq<Value>)
    requires other == lib.(merge := other.merge)
    requires forall i :: 0 <= i < |es| ==> es[i].subKey != ""
    ensures IsChain(lib, values, es, acc) <==> IsChain(other, values, es, acc)
  {
  }

  /** A system with one plain base and one that is nested. */
  lemma PlainAndNested(lib: Library, sys: Systems, values: Systems, n: string, a: string, b: string, key: string)
    requires AllBuilt(lib, sys, values) && n in sys && a in sys && b in sys && key != ""
    requires ExtendsOf(lib, sys, n) == [Extend(a, ""), Extend(b, key)]
    requires ExtendsOf(lib, sys, a) == [] && ExtendsOf(lib, sys, b) == []
    ensures n in values
            && values[n] == lib.merge(lib.addSub(lib.merge(lib.zero, lib.merge(lib.zero, sys[a])),
                                                 lib.merge(lib.zero, sys[b]), key),
                                      sys[n])
  {
    assert IsBuilt(lib, sys, values, a) && IsBuilt(lib, sys, values, b) && IsBuilt(lib, sys, values, n);
    var es := ExtendsOf(lib, sys, n);
    assert es[0] == Extend(a, "") && es[1] == Extend(b, key);
    var acc :| IsChain(lib, values, es, acc) && values[n] == lib.merge(acc[|acc| - 1], sys[n]);
    assert acc[1] == lib.merge(acc[0], values[a]) && acc[2] == lib.addSub(acc[1], values[b], key);
  }

  // ------------------------------------------------------------------
  // The program's walk
  // ------------------------------------------------------------------

  predicate BasesIn(lib: Library, sys: Systems, n: string, processed: set<string>) {
    forall i :: 0 <= i < |ExtendsOf(lib, sys, n)| ==> ExtendsOf(lib, sys, n)[i].base in processed
  }

  /** Processed systems are final, with their bases; the others are untouched. */
  ghost predicate Inv(lib: Library, sys: Systems, rank: map<Node, nat>, now: Systems, processed: set<string>) {
    && Ordered(lib, sys, rank)
    && processed <= Names(lib, sys)
    && now.Keys == sys.Keys + processed
    && (forall n :: n in processed ==> BasesIn(lib, sys, n, processed))
    && (forall n :: n in processed ==> now[n] == Extended(lib, sys, rank, n))
    && (forall n :: n in sys && n !in processed ==> now[n] == sys[n])
  }

  // ------------------------------------------------------------------
  // The walk on the graph
  // ------------------------------------------------------------------

  /** The graph of a configuration's systems holds all bases. */
  lemma ExtendsGraphIsClosed(lib: Library, sys: Systems)
    requires lib.extends_(lib.zero) == []
    ensures Closed(ExtendsGraph(lib, sys))
  {
    var g := ExtendsGraph(lib, sys);
    forall n, i | n in g && 0 <= i < |g[n]|
      ensures g[n][i] in g
    {
      assert n in sys;
      assert g[n][i] == ExtendsOf(lib, sys, n)[i].base;
    }
  }

  /** From the systems processed before, the walk on the graph from `n` leads to those after. */
  ghost predicate Walks(lib: Library, sys: Systems, depth: nat, before: set<string>, n: string, after: set<string>) {
    var g := ExtendsGraph(lib, sys);
    Closed(g) && n in g && Walk(g, depth, before, n) == Some(after)
  }

  ghost predicate WalksBases(lib: Library, sys: Systems, depth: nat, before: set<string>, n: string, i: nat,
                             after: set<string>) {
    var g := ExtendsGraph(lib, sys);
    Closed(g) && n in g && i <= |g[n]| && 0 < depth && WalkBases(g, depth, before, n, i) == Some(after)
  }

  lemma WalksStart(lib: Library, sys: Systems, depth: nat, before: set<string>, n: string)
    requires lib.extends_(lib.zero) == [] && n in Names(lib, sys) && 0 < depth
    ensures WalksBases(lib, sys, depth, before, n, 0, before)
  {
    ExtendsGraphIsClosed(lib, sys);
  }

  lemma WalksNext(lib: Library, sys: Systems, rank: map<Node, nat>, start: set<string>, n: string, i: nat,
                  before: set<string>, after: set<string>)
    requires Ordered(lib, sys, rank) && n in Names(lib, sys) && n in rank && i < |ExtendsOf(lib, sys, n)|
    requires WalksBases(lib, sys, rank[n] + 1, start, n, i, before)
    requires var b := ExtendsOf(lib, sys, n)[i].base;
             && b in rank && rank[b] < rank[n]
             && if b in before then after == before else Walks(lib, sys, rank[b] + 1, before, b, after)
    ensures WalksBases(lib, sys, rank[n] + 1, start, n, i + 1, after)
  {
    hide Walk, Names;
    var g, b := ExtendsGraph(lib, sys), ExtendsOf(lib, sys, n)[i].base;
    assert g[n][i] == b;
    if b !in before {
      WalkDeeper(g, rank[b] + 1, rank[n], before, b);
    }
  }

  lemma WalksEnd(lib: Library, sys: Systems, depth: nat, start: set<string>, n: string, before: set<string>)
    requires n in Names(lib, sys) && WalksBases(lib, sys, depth, start, n, |ExtendsOf(lib, sys, n)|, before)
    ensures Walks(lib, sys, depth, start, n, before + {n})
  {
    hide WalkBases, Names;
  }

  /** An order in which the range may yield systems: all that were there, and some that were added. */
  ghost predicate IsOrder(lib: Library, sys: Systems, order: seq<string>) {
    sys.Keys <= Elements(order) <= Names(lib, sys)
  }

  /** Extending all systems, in that order, comes to an end. */
  ghost predicate ExtensionEnds(lib: Library, sys: Systems, order: seq<string>)
    requires lib.extends_(lib.zero) == [] && IsOrder(lib, sys, order)
  {
    ExtendsGraphIsClosed(lib, sys);
    Ends(ExtendsGraph(lib, sys), order)
  }

  /**
   Extending the systems of a configuration, in any order, ends if and only if no system extends
   itself through others.
   */
  lemma ExtensionEndsIffAcyclic(lib: Library, sys: Systems, order: seq<string>)
    requires lib.extends_(lib.zero) == [] && IsOrder(lib, sys, order)
    ensures ExtensionEnds(lib, sys, order) <==> Acyclic(ExtendsGraph(lib, sys))
  {
    hide Elements, Names;
    ExtendsGraphIsClosed(lib, sys);
    EndsIffAcyclic(ExtendsGraph(lib, sys), order);
  }

  /** A system that names itself among its bases is enough for the extension never to end. */
  lemma SelfExtensionNeverEnds(lib: Library, sys: Systems, order: seq<string>, n: string, i: nat)
    requires lib.extends_(lib.zero) == [] && IsOrder(lib, sys, order)
    requires n in sys && i < |ExtendsOf(lib, sys, n)| && ExtendsOf(lib, sys, n)[i].base == n
    ensures !ExtensionEnds(lib, sys, order)
  {
    var g := ExtendsGraph(lib, sys);
    assert g[n][i] == n;
    assert Edge(g, n, n);
    assert Connects(g, [n, n], n, n);
    ExtensionEndsIffAcyclic(lib, sys, order);
  }

  class Staged {
    const lib: Library
    var systems: Systems
    var processed: set<string>
    ghost var log: seq<string>

    constructor (lib: Library, sys: Systems)
      ensures this.lib == lib && systems == sys && processed == {} && log == []
    {
      this.lib := lib;
      systems, processed, log := sys, {}, [];
    }

    ghost predicate Valid(sys: Systems, rank: map<Node, nat>)
      reads this
    {
      && Inv(lib, sys, rank, systems, processed)
      && Elements(log) == processed
      && Distinct(log)
    }

    method ExtendSystem(n: string, ghost sys: Systems, ghost rank: map<Node, nat>)
      requires Valid(sys, rank) && n in Names(lib, sys) && n !in processed
      modifies this
      ensures Valid(sys, rank) && old(processed) + {n} <= processed
      ensures forall x :: x in processed && x !in old(processed) && x != n ==> x in rank && rank[x] < rank[n]
      ensures Walks(lib, sys, rank[n] + 1, old(processed), n, processed)
      decreases rank[n]
    {
      hide Names, Extended, WithBases, Elements, Inv, Walks, WalksBases;
      Untouched(lib, sys, rank, systems, processed, n);
      var current := if n in systems then systems[n] else lib.zero;
      var es := lib.extends_(current);
      var merged := lib.zero;
      NoBases(lib, sys, rank, n);
      WalksStart(lib, sys, rank[n] + 1, processed, n);
      var i := 0;
      while i < |es|
        invariant 0 <= i <= |es| && es == ExtendsOf(lib, sys, n)
        invariant Valid(sys, rank) && old(processed) <= processed && n !in processed
        invariant merged == WithBases(lib, sys, rank, n, i)
        invariant forall x :: x in processed && x !in old(processed) ==> x in rank && rank[x] < rank[n]
        invariant forall k :: 0 <= k < i ==> es[k].base in processed
        invariant WalksBases(lib, sys, rank[n] + 1, old(processed), n, i, processed)
      {
        BaseIsSmaller(lib, sys, rank, n, i);
        var base := es[i].base;
        ghost var before := processed;
        if base !in processed {
          ExtendSystem(base, sys, rank);
        }
        WalksNext(lib, sys, rank, old(processed), n, i, before, processed);
        BasesNext(lib, sys, rank, n, i);
        Final(lib, sys, rank, systems, processed, base);
        merged := AddBase(lib, merged, systems[base], es[i].subKey);
        i := i + 1;
      }
      EndSystem(lib, sys, rank, systems, processed, log, n);
      WalksEnd(lib, sys, rank[n] + 1, old(processed), n, processed);
      systems := systems[n := lib.merge(merged, current)];
      processed := processed + {n};
      log := log + [n];
    }

    /** All systems, in whatever order the range over the growing map yields them. */
    method ExtendAllSystems()
      requires processed == {} && log == []
      requires lib.extends_(lib.zero) == [] && Acyclic(ExtendsGraph(lib, systems))
      modifies this
      ensures systems.Keys == Names(lib, old(systems))
      ensures forall n, rank :: n in systems && Ordered(lib, old(systems), rank) ==>
                systems[n] == Extended(lib, old(systems), rank, n)
      ensures AllBuilt(lib, old(systems), systems)
      ensures Elements(log) == systems.Keys
      ensures Distinct(log)
    {
      hide Names, Inv, RangeWalks, IsOrder, AllBuilt;
      ghost var sys := systems;
      ghost var rank := Numbering(ExtendsGraph(lib, sys));
      ghost var order := ExtendEach(sys, rank);
      AllProcessed(lib, sys, rank, systems, processed);
      ProcessedIsBuilt(lib, sys, rank, systems);
    }

    method ExtendEach(ghost sys: Systems, ghost rank: map<Node, nat>) returns (ghost order: seq<string>)
      requires processed == {} && log == [] && systems == sys
      requires Ordered(lib, sys, rank)
      modifies this
      ensures Valid(sys, rank) && sys.Keys <= processed
      ensures IsOrder(lib, sys, order) && RangeWalks(lib, sys, order, processed)
    {
      hide Extended, Walks, RangeWalks;
      assert Elements(log) == {};
      order := [];
      RangeStart(lib, sys);
      var pending := systems.Keys;
      while pending != {}
        invariant Valid(sys, rank)
        invariant pending <= systems.Keys && sys.Keys <= pending + processed && sys.Keys <= pending + Elements(order)
        invariant Elements(order) <= Names(lib, sys) && RangeWalks(lib, sys, order, processed)
        decreases Names(lib, sys) - processed, pending
      {
        hide Names, Elements;
        var n :| n in pending;
        pending := pending - {n};
        ghost var was := processed;
        NowInNames(lib, sys, rank, systems, processed, n);
        if n !in processed {
          var before := systems.Keys;
          ExtendSystem(n, sys, rank);
          // Entries added meanwhile may or may not be yielded.
          var yielded: set<string> := *;
          pending := pending + (yielded * (systems.Keys - before));
        }
        RangeNext(lib, sys, rank, order, was, n, processed);
        order := order + [n];
      }
    }
  }

  lemma Untouched(lib: Library, sys: Systems, rank: map<Node, nat>, now: Systems, processed: set<string>, n: string)
    requires Inv(lib, sys, rank, now, processed) && n !in processed
    ensures Ordered(lib, sys, rank) && Lookup(lib, now, n) == Lookup(lib, sys, n)
    ensures Names(lib, sys) <= rank.Keys && processed <= Names(lib, sys)
  {
    hide Names;
  }

  lemma Final(lib: Library, sys: Systems, rank: map<Node, nat>, now: Systems, processed: set<string>, n: string)
    requires Inv(lib, sys, rank, now, processed) && n in processed
    ensures n in Names(lib, sys) && Ordered(lib, sys, rank) && n in now && now[n] == Extended(lib, sys, rank, n)
    ensures processed <= Names(lib, sys)
  {
  }

  /** Whatever is in the table by now is a system or a base. */
  lemma NowInNames(lib: Library, sys: Systems, rank: map<Node, nat>, now: Systems, processed: set<string>, n: string)
    requires Inv(lib, sys, rank, now, processed) && n in now
    ensures n in Names(lib, sys)
  {
  }

  /** The range over the graph, in that order, leads to those processed. */
  ghost predicate RangeWalks(lib: Library, sys: Systems, order: seq<string>, processed: set<string>) {
    var g := ExtendsGraph(lib, sys);
    Closed(g) && Elements(order) <= g.Keys && exists depth :: WalkAll(g, depth, order) == Some(processed)
  }

  lemma RangeStart(lib: Library, sys: Systems)
    requires lib.extends_(lib.zero) == []
    ensures RangeWalks(lib, sys, [], {})
  {
    ExtendsGraphIsClosed(lib, sys);
    assert WalkAll(ExtendsGraph(lib, sys), 0, []) == Some({});
  }

  lemma RangeNext(lib: Library, sys: Systems, rank: map<Node, nat>, order: seq<string>, before: set<string>,
                  n: string, after: set<string>)
    requires n in Names(lib, sys) && n in rank && RangeWalks(lib, sys, order, before)
    requires if n in before then after == before else Walks(lib, sys, rank[n] + 1, before, n, after)
    ensures Elements(order + [n]) == Elements(order) + {n}
    ensures RangeWalks(lib, sys, order + [n], after)
  {
    hide Names, Walk, Elements;
    var g := ExtendsGraph(lib, sys);
    var depth :| WalkAll(g, depth, order) == Some(before);
    ElementsSnoc(order, n);
    var more := depth + rank[n] + 1;
    WalkAllDeeper(g, depth, more, order);
    if n !in before {
      WalkDeeper(g, rank[n] + 1, more, before, n);
    }
    assert WalkAll(g, more, order + [n]) == Some(after);
  }

  lemma NoBases(lib: Library, sys: Systems, rank: map<Node, nat>, n: string)
    requires Ordered(lib, sys, rank) && n in Names(lib, sys)
    ensures WithBases(lib, sys, rank, n, 0) == lib.zero
  {
  }

  lemma EndSystem(lib: Library, sys: Systems, rank: map<Node, nat>, now: Systems, processed: set<string>,
                  log: seq<string>, n: string)
    requires Inv(lib, sys, rank, now, processed) && n in Names(lib, sys) && n !in processed
    requires Elements(log) == processed && BasesIn(lib, sys, n, processed)
    ensures var v := lib.merge(WithBases(lib, sys, rank, n, |ExtendsOf(lib, sys, n)|), Lookup(lib, sys, n));
            Inv(lib, sys, rank, now[n := v], processed + {n})
    ensures Elements(log + [n]) == processed + {n}
    ensures n !in log
  {
    hide Names, WithBases;
    assert n in log ==> n in Elements(log);
  }

  /** Once every system is processed, so is every base that was mentioned, and all are final. */
  lemma AllProcessed(lib: Library, sys: Systems, rank: map<Node, nat>, now: Systems, processed: set<string>)
    requires Inv(lib, sys, rank, now, processed) && sys.Keys <= processed
    ensures now.Keys == Names(lib, sys) == processed
    ensures forall n, r :: n in now && Ordered(lib, sys, r) ==> now[n] == Extended(lib, sys, r, n)
  {
    hide Extended;
    forall n, i | n in sys && 0 <= i < |ExtendsOf(lib, sys, n)|
      ensures ExtendsOf(lib, sys, n)[i].base in processed
    {
      assert BasesIn(lib, sys, n, processed);
    }
    forall n, r | n in now && Ordered(lib, sys, r)
      ensures now[n] == Extended(lib, sys, r, n)
    {
      RankDoesNotMatter(lib, sys, rank, r, n);
    }
  }

  lemma ProcessedIsBuilt(lib: Library, sys: Systems, rank: map<Node, nat>, now: Systems)
    requires Ordered(lib, sys, rank) && now.Keys == Names(lib, sys)
    requires forall n :: n in now ==> now[n] == Extended(lib, sys, rank, n)
    ensures AllBuilt(lib, sys, now)
  {
    hide Extended, IsBuilt, Names;
    forall n | n in now
      ensures IsBuilt(lib, sys, now, n)
    {
      ExtendedIsBuilt(lib, sys, rank, now, n);
    }
  }

  lemma BasesNext(lib: Library, sys: Systems, rank: map<Node, nat>, n: string, i: nat)
    requires Ordered(lib, sys, rank) && n in Names(lib, sys) && i < |ExtendsOf(lib, sys, n)|
    ensures var e := ExtendsOf(lib, sys, n)[i];
            && e.base in Names(lib, sys)
            && WithBases(lib, sys, rank, n, i + 1)
               == AddBase(lib, WithBases(lib, sys, rank, n, i), Extended(lib, sys, rank, e.base), e.subKey)
  {
    BaseIsSmaller(lib, sys, rank, n, i);
  }
}
