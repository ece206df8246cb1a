/**
 The join of a workflow's threads. Returns of different threads interleave at the grain of the
 locked merge, the atomic increment and the branch on the incremented value.
 */
module ThreadJoin {
  import opened Values
  import opened Workflow
  import opened Lists

  /** What a thread hands back: its exports, and a status that may end the session early. */
  datatype Return = Return(msg: Message, exports: seq<Ctx>)

  datatype Pc =
    | Returning
    | Merged
    | Counted(at: nat)
    | Passed(at: nat)    // went on past the join
    | Waiting(at: nat)   // left the join to the others
    | Exited             // completed the session early

  datatype Joint = Joint(sem: Semantics, wf: Definition, threads: seq<Return>)

  /** `merges` and `counts` list the threads in the order of their merges and increments. */
  datatype State = State(frame: Frame, current: nat, pcs: seq<Pc>, merges: seq<nat>, counts: seq<nat>)

  predicate CanMove(j: Joint, s: State, i: nat) {
    && |s.pcs| == |j.threads| && i < |s.pcs|
    && (s.pcs[i].Returning? || s.pcs[i].Merged? || s.pcs[i].Counted?)
  }

  function Move(j: Joint, s: State, i: nat): State
    requires CanMove(j, s, i)
  {
    match s.pcs[i]
    case Returning =>
      s.(frame := Absorb(j.sem, j.wf, s.frame, j.threads[i].exports),
         pcs := s.pcs[i := Merged], merges := s.merges + [i])
    case Merged =>
      if Exits(j.wf, j.threads[i].msg) then s.(pcs := s.pcs[i := Exited])
      else s.(current := s.current + 1, pcs := s.pcs[i := Counted(s.current + 1)], counts := s.counts + [i])
    case Counted(at) =>
      s.(pcs := s.pcs[i := if at >= |j.threads| then Passed(at) else Waiting(at)])
  }

  ghost predicate IsRun(j: Joint, fr: Frame, states: seq<State>, moves: seq<nat>) {
    && |states| == |moves| + 1
    && (forall k :: 0 <= k < |states| ==> |states[k].pcs| == |j.threads|)
    && states[0] == State(fr, 0, seq(|j.threads|, i => Returning), [], [])
    && (forall k :: 0 <= k < |moves| ==>
          CanMove(j, states[k], moves[k]) && states[k + 1] == Move(j, states[k], moves[k]))
  }

  /** Each thread's exports, merged in a given order. */
  function AbsorbAll(j: Joint, fr: Frame, order: seq<nat>): Frame
    requires forall k :: 0 <= k < |order| ==> order[k] < |j.threads|
  {
    if order == [] then fr
    else
      var n := |order| - 1;
      Absorb(j.sem, j.wf, AbsorbAll(j, fr, order[..n]), j.threads[order[n]].exports)
  }

  /** Every number below `n`, once. */
  ghost predicate Permutation(order: seq<nat>, n: nat) {
    Distinct(order) && Elements(order) == Below(n)
  }

  predicate HasCount(pc: Pc) {
    pc.Counted? || pc.Passed? || pc.Waiting?
  }

  ghost predicate ThreadOk(j: Joint, s: State, i: nat)
    requires i < |s.pcs| == |j.threads|
  {
    var pc := s.pcs[i];
    && (i in s.merges <==> !pc.Returning?)
    && (i in s.counts <==> HasCount(pc))
    && (HasCount(pc) ==> 1 <= pc.at <= |s.counts| && s.counts[pc.at - 1] == i && !Exits(j.wf, j.threads[i].msg))
    && (pc.Passed? ==> pc.at >= |s.pcs|)
    && (pc.Waiting? ==> pc.at < |s.pcs|)
    && (pc.Exited? ==> Exits(j.wf, j.threads[i].msg))
  }

  ghost predicate Inv(j: Joint, fr: Frame, s: State) {
    && |s.pcs| == |j.threads|
    && Distinct(s.merges) && Elements(s.merges) <= Below(|s.pcs|)
    && Distinct(s.counts) && Elements(s.counts) <= Below(|s.pcs|)
    && (forall k :: 0 <= k < |s.merges| ==> s.merges[k] < |j.threads|)
    && s.frame == AbsorbAll(j, fr, s.merges)
    && s.current == |s.counts|
    && (forall i: nat :: i < |s.pcs| ==> ThreadOk(j, s, i))
  }

  lemma Snoc(order: seq<nat>, i: nat, n: nat)
    requires Distinct(order) && Elements(order) <= Below(n) && i !in order && i < n
    ensures Distinct(order + [i]) && Elements(order + [i]) <= Below(n)
    ensures forall x :: x in order + [i] <==> x in order || x == i
  {
    assert Elements(order + [i]) == Elements(order) + {i};
  }

  lemma MergeKeeps(j: Joint, fr: Frame, s: State, i: nat)
    requires Inv(j, fr, s) && CanMove(j, s, i) && s.pcs[i].Returning?
    ensures Inv(j, fr, Move(j, s, i))
  {
    hide Absorb, Elements;
    var s' := Move(j, s, i);
    assert ThreadOk(j, s, i);
    Snoc(s.merges, i, |s.pcs|);
    assert s'.merges[..|s.merges|] == s.merges;
    forall x: nat | x < |s.pcs|
      ensures ThreadOk(j, s', x)
    {
      assert ThreadOk(j, s, x);
    }
  }

  lemma CountKeeps(j: Joint, fr: Frame, s: State, i: nat)
    requires Inv(j, fr, s) && CanMove(j, s, i) && !s.pcs[i].Returning?
    ensures Inv(j, fr, Move(j, s, i))
  {
    hide AbsorbAll, Elements;
    var s' := Move(j, s, i);
    assert ThreadOk(j, s, i);
    if s.pcs[i].Merged? && !Exits(j.wf, j.threads[i].msg) {
      Snoc(s.counts, i, |s.pcs|);
    }
    forall x: nat | x < |s.pcs|
      ensures ThreadOk(j, s', x)
    {
      assert ThreadOk(j, s, x);
    }
  }

  lemma {:induction false} Reachable(j: Joint, fr: Frame, states: seq<State>, moves: seq<nat>, k: nat)
    requires IsRun(j, fr, states, moves) && k < |states|
    ensures Inv(j, fr, states[k])
    decreases k
  {
    if k == 0 {
    } else {
      Reachable(j, fr, states, moves, k - 1);
      var s, i := states[k - 1], moves[k - 1];
      if s.pcs[i].Returning? {
        MergeKeeps(j, fr, s, i);
      } else {
        CountKeeps(j, fr, s, i);
      }
    }
  }

  /** A list of threads without repetition that is long enough has everybody in it. */
  lemma AllAreIn(order: seq<nat>, n: nat)
    requires Distinct(order) && Elements(order) <= Below(n)
    ensures |order| >= n ==> |order| == n && Elements(order) == Below(n)
    ensures (forall i: nat :: i < n ==> i in order) ==> |order| == n && Elements(order) == Below(n)
    ensures |order| <= n
  {
    DistinctFits(order, Below(n));
    DistinctSize(order);
    if forall i: nat :: i < n ==> i in order {
      assert Elements(order) == Below(n);
    }
  }

  /**
   Whoever passes the join made the last of the `n` increments, nobody else passes it, no
   thread exits early, and every thread's exports have been merged, each exactly once.
   */
  lemma OnePasses(j: Joint, fr: Frame, states: seq<State>, moves: seq<nat>, k: nat, i: nat, x: nat)
    requires IsRun(j, fr, states, moves) && k < |states|
    requires i < |j.threads| && states[k].pcs[i].Passed?
    requires x < |j.threads|
    ensures states[k].pcs[i].at == |j.threads| == |states[k].counts| && states[k].counts[|j.threads| - 1] == i
    ensures states[k].pcs[x].Passed? ==> x == i
    ensures !Exits(j.wf, j.threads[x].msg)
    ensures Permutation(states[k].merges, |j.threads|)
    ensures (forall m :: 0 <= m < |states[k].merges| ==> states[k].merges[m] < |j.threads|)
            && states[k].frame == AbsorbAll(j, fr, states[k].merges)
  {
    hide AbsorbAll, Elements, Exits;
    Reachable(j, fr, states, moves, k);
    var s, n := states[k], |j.threads|;
    AllArrived(j, fr, s, i);
    assert ThreadOk(j, s, i) && ThreadOk(j, s, x);
  }

  /** By the time a thread passes, all have merged and been counted. */
  lemma AllArrived(j: Joint, fr: Frame, s: State, i: nat)
    requires Inv(j, fr, s) && i < |s.pcs| && s.pcs[i].Passed?
    ensures |s.counts| == |s.pcs| && forall y: nat :: y < |s.pcs| ==> y in s.counts
    ensures Permutation(s.merges, |s.pcs|)
  {
    hide AbsorbAll, Exits;
    var n := |s.pcs|;
    assert ThreadOk(j, s, i);
    AllAreIn(s.counts, n);
    forall y: nat | y < n
      ensures y in s.counts && y in s.merges
    {
      assert y in Elements(s.counts);
      assert ThreadOk(j, s, y);
    }
    AllAreIn(s.merges, n);
  }

  /** Nothing is left to do. */
  predicate Ended(s: State) {
    forall i :: 0 <= i < |s.pcs| ==> !s.pcs[i].Returning? && !s.pcs[i].Merged? && !s.pcs[i].Counted?
  }

  /** When all returns are processed, exactly one passed the join if none exits early, and none otherwise. */
  lemma PassesIffNoneExits(j: Joint, fr: Frame, states: seq<State>, moves: seq<nat>)
    requires IsRun(j, fr, states, moves) && |j.threads| > 0
    requires Ended(states[|moves|])
    ensures (exists i :: 0 <= i < |j.threads| && states[|moves|].pcs[i].Passed?)
            <==> (forall x :: 0 <= x < |j.threads| ==> !Exits(j.wf, j.threads[x].msg))
  {
    hide AbsorbAll;
    var s, n := states[|moves|], |j.threads|;
    Reachable(j, fr, states, moves, |moves|);
    if i :| 0 <= i < n && s.pcs[i].Passed? {
      forall x: nat | x < n
        ensures !Exits(j.wf, j.threads[x].msg)
      {
        OnePasses(j, fr, states, moves, |moves|, i, x);
      }
    }
    if forall x :: 0 <= x < n ==> !Exits(j.wf, j.threads[x].msg) {
      forall y: nat | y < n
        ensures y in s.counts
      {
        assert ThreadOk(j, s, y);
      }
      AllAreIn(s.counts, n);
      var last := s.counts[n - 1];
      assert last in Elements(s.counts);
      assert ThreadOk(j, s, last);
      assert s.pcs[last].at == n;
      assert s.pcs[last].Passed?;
    }
  }
}
