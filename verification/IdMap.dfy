/**
 The ID allocator behind the session store and the RPC tables: a map whose keys are
 handed out by a counter that wraps around at a fixed bound.

 IDs are natural numbers here; the program stores their decimal spelling, which is
 injective.
 */
module IdMap {
  import opened Lists

  /** The exclusive bound of the IDs. */
  const MAX_ID: nat := 13684

  predicate Bounded(live: set<nat>, n: nat) {
    forall id :: id in live ==> id < n
  }

  predicate HasFree(live: set<nat>, n: nat) {
    exists id: nat :: id < n && id !in live
  }

  /** The counter after one increment with wrap-around. */
  function Bump(c: nat, n: nat): (r: nat)
    requires c < n
  {
    if c + 1 == n then 0 else c + 1
  }

  /** The ID found `d` increments after `c`. */
  function At(c: nat, d: nat, n: nat): (r: nat)
    requires c < n && d <= n
    ensures r < n
  {
    if c + d < n then c + d else c + d - n
  }

  /** How many increments separate `c` from `id`, going round. */
  function Distance(c: nat, id: nat, n: nat): (d: nat)
    requires c < n && id < n
    ensures d < n && At(c, d, n) == id
  {
    if c <= id then id - c else id - c + n
  }

  /** The number of live IDs passed over from `c` on, given that the first `d` are live. */
  function Skips(live: set<nat>, c: nat, n: nat, d: nat): (r: nat)
    requires c < n && d < n
    requires HasFree(live, n)
    requires forall e :: 0 <= e < d ==> At(c, e, n) in live
    ensures d <= r < n
    ensures At(c, r, n) !in live
    ensures forall e :: 0 <= e < r ==> At(c, e, n) in live
    decreases n - d
  {
    if At(c, d, n) !in live then d
    else
      assert d + 1 < n by { FreeIsAhead(live, c, n, d + 1); }
      Skips(live, c, n, d + 1)
  }

  lemma FreeIsAhead(live: set<nat>, c: nat, n: nat, d: nat)
    requires c < n && d <= n
    requires HasFree(live, n)
    requires forall e :: 0 <= e < d ==> At(c, e, n) in live
    ensures d < n
  {
    var id: nat :| id < n && id !in live;
    assert At(c, Distance(c, id, n), n) == id;
  }

  /** The ID the next put will hand out. */
  function NextFree(live: set<nat>, c: nat, n: nat): (id: nat)
    requires c < n
    requires HasFree(live, n)
    ensures id < n && id !in live
    ensures forall e :: 0 <= e < Distance(c, id, n) ==> At(c, e, n) in live
  {
    At(c, Skips(live, c, n, 0), n)
  }

  /** The IDs a put looks at: those it passes over, then the one it hands out. */
  function Probed(live: set<nat>, c: nat, n: nat): (s: set<nat>)
    requires c < n
    requires HasFree(live, n)
    ensures forall id :: id in s ==> id in live || id == NextFree(live, c, n)
  {
    set e | 0 <= e <= Skips(live, c, n, 0) :: At(c, e, n)
  }

  /** Pigeonhole, both ways: there is a free ID exactly when fewer than `n` are live. */
  lemma FreeIffRoom(live: set<nat>, n: nat)
    requires Bounded(live, n)
    ensures HasFree(live, n) <==> |live| < n
  {
    SubsetSize(live, Below(n));
    if HasFree(live, n) {
      var id: nat :| id < n && id !in live;
      assert id in Below(n);
      assert live != Below(n);
    } else {
      assert live == Below(n);
    }
  }

  /** The program's tables take 13684 entries and no more. */
  lemma TableTakes(live: set<nat>)
    requires Bounded(live, MAX_ID)
    ensures HasFree(live, MAX_ID) <==> |live| < 13684
  {
    FreeIffRoom(live, MAX_ID);
  }

  /** The program's map together with its counter. */
  class Table<V> {
    const maxId: nat
    var counter: nat
    var entries: map<nat, V>

    ghost predicate Valid()
      reads this
    {
      counter < maxId && Bounded(entries.Keys, maxId)
    }

    constructor (n: nat)
      requires 0 < n
      ensures Valid()
      ensures maxId == n && counter == 0 && entries == map[]
    {
      maxId := n;
      counter := 0;
      entries := map[];
    }

    /** Hands out the first free ID at or after the counter and moves the counter past it. */
    method Put(val: V) returns (id: nat)
      requires Valid()
      requires HasFree(entries.Keys, maxId)
      modifies this
      ensures Valid()
      ensures id == NextFree(old(entries.Keys), old(counter), maxId)
      ensures id !in old(entries)
      ensures entries == old(entries)[id := val]
      ensures counter == Bump(id, maxId)
    {
      ghost var live, c := entries.Keys, counter;
      ghost var d := 0;
      while counter in entries
        invariant entries == old(entries)
        invariant d < maxId && counter == At(c, d, maxId)
        invariant d <= Skips(live, c, maxId, 0)
        decreases maxId - d
      {
        counter := counter + 1;
        if counter == maxId {
          counter := 0;
        }
        d := d + 1;
      }
      id := counter;
      entries := entries[id := val];
      counter := counter + 1;
      if counter == maxId {
        counter := 0;
      }
    }

    method Del(key: nat)
      requires Valid()
      modifies `entries
      ensures Valid()
      ensures entries == old(entries) - {key}
    {
      entries := entries - {key};
    }

    method Get(key: nat) returns (found: bool, val: seq<V>)
      ensures found <==> key in entries
      ensures val == if key in entries then [entries[key]] else []
    {
      if key in entries {
        return true, [entries[key]];
      }
      return false, [];
    }
  }

  // ------------------------------------------------------------------
  // Runs of puts and deletes
  // ------------------------------------------------------------------

  datatype Op = Put | Del(key: nat)

  datatype State = State(live: set<nat>, counter: nat)

  predicate Wf(s: State, n: nat) {
    s.counter < n && Bounded(s.live, n)
  }

  /** A put needs a free ID; otherwise its search never ends. */
  predicate Enabled(s: State, op: Op, n: nat) {
    op.Put? ==> HasFree(s.live, n)
  }

  function Apply(s: State, op: Op, n: nat): (r: State)
    requires Wf(s, n) && Enabled(s, op, n)
    ensures Wf(r, n)
  {
    match op
    case Put =>
      var id := NextFree(s.live, s.counter, n);
      State(s.live + {id}, Bump(id, n))
    case Del(key) => s.(live := s.live - {key})
  }

  /** A run: the states before each operation and after the last one. */
  ghost predicate IsRun(states: seq<State>, ops: seq<Op>, n: nat) {
    && |states| == |ops| + 1
    && (forall i :: 0 <= i < |states| ==> Wf(states[i], n))
    && (forall i :: 0 <= i < |ops| ==>
          Enabled(states[i], ops[i], n) && states[i + 1] == Apply(states[i], ops[i], n))
  }

  predicate Issues(states: seq<State>, ops: seq<Op>, n: nat, i: nat, id: nat)
    requires i < |ops| < |states|
    requires Wf(states[i], n) && Enabled(states[i], ops[i], n)
  {
    ops[i].Put? && NextFree(states[i].live, states[i].counter, n) == id
  }

  /** The number of counter increments made by operation `i`. */
  ghost function Moves(states: seq<State>, ops: seq<Op>, n: nat, i: nat): nat
    requires IsRun(states, ops, n) && i < |ops|
  {
    if ops[i].Put? then Skips(states[i].live, states[i].counter, n, 0) + 1 else 0
  }

  /** The number of counter increments made between operations `i` and `j`. */
  ghost function Travel(states: seq<State>, ops: seq<Op>, n: nat, i: nat, j: nat): nat
    requires IsRun(states, ops, n) && i <= j <= |ops|
    decreases j - i
  {
    if i == j then 0 else Travel(states, ops, n, i, j - 1) + Moves(states, ops, n, j - 1)
  }

  /** A count of increments, wrapped around. */
  function Wrap(v: nat, n: nat): (r: nat)
    requires 0 < n
    ensures r < n
  {
    v % n
  }

  lemma WrapSmall(v: nat, n: nat)
    requires v < n
    ensures Wrap(v, n) == v
  {
    ModUnique(v, 0, v, n);
  }

  lemma WrapStep(v: nat, n: nat)
    requires 0 < n
    ensures Bump(Wrap(v, n), n) == Wrap(v + 1, n)
  {
    var q, r := v / n, v % n;
    assert v == q * n + r;
    if r + 1 == n {
      assert v + 1 == (q + 1) * n by { assert (q + 1) * n == q * n + n; }
      ModUnique(v + 1, q + 1, 0, n);
    } else {
      ModUnique(v + 1, q, r + 1, n);
    }
  }

  lemma {:induction false} MulGap(a: nat, b: nat, n: nat)
    ensures a < b ==> a * n + n <= b * n
    decreases b
  {
    if a + 1 < b {
      MulGap(a, b - 1, n);
    }
  }

  lemma ModUnique(v: nat, q: nat, r: nat, n: nat)
    requires 0 < n && r < n && v == q * n + r
    ensures v % n == r
  {
    var q', r' := v / n, v % n;
    assert v == q' * n + r';
    MulGap(q, q', n);
    MulGap(q', q, n);
  }

  lemma {:induction false} AtIsWrap(v: nat, d: nat, n: nat)
    requires 0 < n && d < n
    ensures At(Wrap(v, n), d, n) == Wrap(v + d, n)
    decreases d
  {
    hide Wrap;
    if d == 0 {
    } else {
      AtIsWrap(v, d - 1, n);
      WrapStep(v + d - 1, n);
    }
  }

  /** The counter is the distance travelled, wrapped around. */
  lemma {:induction false} CounterIsTravel(states: seq<State>, ops: seq<Op>, n: nat, i: nat, j: nat)
    requires IsRun(states, ops, n) && i <= j <= |ops|
    ensures states[j].counter == Wrap(states[i].counter + Travel(states, ops, n, i, j), n)
    decreases j - i
  {
    hide Wrap;
    if i == j {
      WrapSmall(states[i].counter, n);
    } else {
      CounterIsTravel(states, ops, n, i, j - 1);
      var s := states[j - 1];
      if ops[j - 1].Put? {
        var v := states[i].counter + Travel(states, ops, n, i, j - 1);
        var d := Skips(s.live, s.counter, n, 0);
        AtIsWrap(v, d, n);
        WrapStep(v + d, n);
      }
    }
  }

  /** Every increment made between `i` and `j` was made by a put that looked at that ID. */
  lemma {:induction false} TravelIsProbed(states: seq<State>, ops: seq<Op>, n: nat, i: nat, j: nat, d: nat)
    returns (k: nat)
    requires IsRun(states, ops, n) && i <= j <= |ops|
    requires d < Travel(states, ops, n, i, j)
    ensures i <= k < j && ops[k].Put?
    ensures Wrap(states[i].counter + d, n) in Probed(states[k].live, states[k].counter, n)
    decreases j - i
  {
    hide Wrap;
    var t := Travel(states, ops, n, i, j - 1);
    if d < t {
      k := TravelIsProbed(states, ops, n, i, j - 1, d);
    } else {
      k := j - 1;
      CounterIsTravel(states, ops, n, i, k);
      var e := d - t;
      AtIsWrap(states[i].counter + t, e, n);
      assert At(states[k].counter, e, n) in Probed(states[k].live, states[k].counter, n);
    }
  }

  lemma SameResidue(a: nat, b: nat, n: nat)
    requires 0 < n && a < b && Wrap(a, n) == Wrap(b, n)
    ensures n <= b - a
  {
    var p, q := a / n, b / n;
    assert a == p * n + a % n && b == q * n + b % n;
    MulGap(p, q, n);
    MulGap(q, p, n);
  }

  /** The second allocation ends the walk on `id`, so the walk went all the way round. */
  lemma FullRound(states: seq<State>, ops: seq<Op>, n: nat, i: nat, j: nat, id: nat)
    requires IsRun(states, ops, n)
    requires i < j < |ops|
    requires Issues(states, ops, n, i, id) && Issues(states, ops, n, j, id)
    ensures n <= Travel(states, ops, n, i + 1, j + 1)
  {
    hide Wrap;
    var c := states[i + 1].counter;
    var total := Travel(states, ops, n, i + 1, j + 1);
    CounterIsTravel(states, ops, n, i + 1, j + 1);
    assert states[j + 1].counter == Bump(id, n) == c;
    WrapSmall(c, n);
    SameResidue(c, c + total, n);
  }

  /**
   No ID is reused before a full sweep: between two allocations of the same ID, every other
   ID was handed out, or was live when a put passed over it.
   */
  lemma FullSweep(states: seq<State>, ops: seq<Op>, n: nat, i: nat, j: nat, id: nat, other: nat)
    returns (k: nat)
    requires IsRun(states, ops, n)
    requires i < j < |ops|
    requires Issues(states, ops, n, i, id) && Issues(states, ops, n, j, id)
    requires other < n && other != id
    ensures i < k <= j && ops[k].Put?
    ensures other in Probed(states[k].live, states[k].counter, n)
    ensures other in states[k].live || Issues(states, ops, n, k, other)
  {
    hide Travel, Wrap;
    var c := states[i + 1].counter;
    FullRound(states, ops, n, i, j, id);
    var d := Distance(c, other, n);
    WrapSmall(c, n);
    AtIsWrap(c, d, n);
    k := TravelIsProbed(states, ops, n, i + 1, j + 1, d);
  }
}
