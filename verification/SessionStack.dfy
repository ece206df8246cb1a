/**
 The sessions of a running root workflow form a stack: each was started by the one below it, and
 only the one on top is at work. So the settings that a session took over when it was prepared
 are still those of the nearest session below it that sets them.
 */
module SessionStack {
  import opened Values
  import opened Workflow
  import opened Evaluator
  import opened Machine
  import IdMap
  import L = Lists

  type Table = map<nat, Session>

  /** A definition as it was prepared, before settings were taken over. */
  ghost predicate IsPrepared(sem: Semantics, d: Definition) {
    exists wf, ctx, msg :: sem.prepare(wf, ctx, msg).Some? && sem.prepare(wf, ctx, msg).value.wf == d
  }

  function Below(ids: seq<nat>, k: nat): Option<nat>
    requires k <= |ids|
  {
    if k == 0 then None else Some(ids[k - 1])
  }

  /** Session `k` of the stack: started by the one below, with the settings of those below. */
  ghost predicate Sits(now: Table, ids: seq<nat>, defs: seq<Definition>, k: nat)
    requires k < |ids| && k < |defs|
  {
    && ids[k] in now
    && now[ids[k]].parent == Below(ids, k)
    && now[ids[k]].wf == Effective(defs[..k + 1])
  }

  /** The root's definition at the bottom, and above it whatever was prepared. */
  ghost predicate Prepareds(sem: Semantics, root: Definition, defs: seq<Definition>) {
    && (defs != [] ==> defs[0] == root)
    && (forall k :: 0 < k < |defs| ==> IsPrepared(sem, defs[k]))
  }

  /** The table holds what it held before, untouched, and the sessions of the stack. */
  ghost predicate Holds(before: Table, now: Table, ids: seq<nat>) {
    && L.Distinct(ids)
    && (forall id :: id in before ==> id !in ids && id in now && now[id] == before[id])
    && (forall id :: id in now <==> id in before || id in ids)
  }

  ghost predicate Stacked(sem: Semantics, before: Table, now: Table, root: Definition,
                          ids: seq<nat>, defs: seq<Definition>) {
    && |ids| <= |defs|
    && Prepareds(sem, root, defs)
    && Holds(before, now, ids)
    && (forall k :: 0 <= k < |ids| ==> Sits(now, ids, defs, k))
  }

  /** The work in hand is that of the top session, or of one that is about to be put there. */
  ghost predicate OnTop(focus: Focus, ids: seq<nat>, defs: seq<Definition>) {
    match focus
    case Launch(s, _) => |defs| == |ids| + 1 && s.parent == Below(ids, |ids|) && s.wf == Effective(defs)
    case LaunchElse(s, _) => |defs| == |ids| + 1 && s.parent == Below(ids, |ids|) && s.wf == Effective(defs)
    case Continue(id, _, _) => |defs| == |ids| && Some(id) == Below(ids, |ids|)
    case Await(id) => |defs| == |ids| && Some(id) == Below(ids, |ids|)
    case Idle => ids == [] && defs == []
  }

  ghost predicate IsStack(sem: Semantics, before: Table, m: State, root: Definition,
                          ids: seq<nat>, defs: seq<Definition>) {
    Stacked(sem, before, m.sessions, root, ids, defs) && OnTop(m.focus, ids, defs)
  }

  ghost predicate HasStack(sem: Semantics, before: Table, m: State, root: Definition) {
    exists ids, defs :: IsStack(sem, before, m, root, ids, defs)
  }

  /** Session `id` is on top, whatever the work in hand. */
  ghost predicate IsTop(sem: Semantics, before: Table, now: Table, root: Definition, id: nat) {
    exists ids, defs ::
      Stacked(sem, before, now, root, ids, defs) && |ids| == |defs| && Some(id) == Below(ids, |ids|)
  }

  // ------------------------------------------------------------------
  // Pushing, popping and writing
  // ------------------------------------------------------------------

  lemma TopIsThere(sem: Semantics, before: Table, now: Table, root: Definition, id: nat)
    requires IsTop(sem, before, now, root, id)
    ensures id in now
  {
    var ids, defs :|
      Stacked(sem, before, now, root, ids, defs) && |ids| == |defs| && Some(id) == Below(ids, |ids|);
    TopSits(sem, before, now, root, ids, defs);
  }

  /** A session's fields are written back; its definition and its parent stay. */
  lemma WriteKeeps(sem: Semantics, before: Table, now: Table, root: Definition, id: nat, s: Session)
    requires IsTop(sem, before, now, root, id) && id in now && s.wf == now[id].wf && s.parent == now[id].parent
    ensures IsTop(sem, before, now[id := s], root, id)
  {
    hide Effective;
    var ids, defs :|
      Stacked(sem, before, now, root, ids, defs) && |ids| == |defs| && Some(id) == Below(ids, |ids|);
    var later := now[id := s];
    assert id in ids;
    forall k | 0 <= k < |ids|
      ensures Sits(later, ids, defs, k)
    {
      assert Sits(now, ids, defs, k);
    }
    assert Stacked(sem, before, later, root, ids, defs);
  }

  lemma TopSits(sem: Semantics, before: Table, now: Table, root: Definition, ids: seq<nat>, defs: seq<Definition>)
    requires Stacked(sem, before, now, root, ids, defs) && |ids| == |defs| && ids != []
    ensures var n := |ids| - 1;
            ids[n] in now && now[ids[n]].parent == Below(ids, n) && now[ids[n]].wf == Effective(defs)
  {
    assert Sits(now, ids, defs, |ids| - 1) && defs[..|defs|] == defs;
  }

  lemma PopKeeps(sem: Semantics, before: Table, now: Table, root: Definition, ids: seq<nat>, defs: seq<Definition>)
    requires Stacked(sem, before, now, root, ids, defs) && |ids| == |defs| && ids != []
    ensures var n := |ids| - 1; Stacked(sem, before, now - {ids[n]}, root, ids[..n], defs[..n])
  {
    hide Effective, Holds;
    HoldsLess(before, now, ids);
    var n := |ids| - 1;
    var later := now - {ids[n]};
    assert ids[n] !in ids[..n] by {
      NotAgain(before, now, ids);
    }
    forall k | 0 <= k < n
      ensures Sits(later, ids[..n], defs[..n], k)
    {
      assert Sits(now, ids, defs, k);
      assert defs[..n][..k + 1] == defs[..k + 1];
    }
  }

  lemma HoldsMore(before: Table, now: Table, ids: seq<nat>, id: nat, s: Session)
    requires Holds(before, now, ids) && id !in now
    ensures Holds(before, now[id := s], ids + [id])
  {
  }

  lemma NotAgain(before: Table, now: Table, ids: seq<nat>)
    requires Holds(before, now, ids) && ids != []
    ensures ids[|ids| - 1] !in ids[..|ids| - 1]
  {
  }

  lemma HoldsLess(before: Table, now: Table, ids: seq<nat>)
    requires Holds(before, now, ids) && ids != []
    ensures Holds(before, now - {ids[|ids| - 1]}, ids[..|ids| - 1])
  {
    assert ids == ids[..|ids| - 1] + [ids[|ids| - 1]];
  }

  lemma PushKeeps(sem: Semantics, before: Table, now: Table, root: Definition, ids: seq<nat>,
                  defs: seq<Definition>, id: nat, s: Session)
    requires Stacked(sem, before, now, root, ids, defs) && |defs| == |ids| + 1 && id !in now
    requires s.parent == Below(ids, |ids|) && s.wf == Effective(defs)
    ensures IsTop(sem, before, now[id := s], root, id)
  {
    hide Effective, Holds, Prepareds;
    HoldsMore(before, now, ids, id, s);
    var later, all := now[id := s], ids + [id];
    assert defs[..|defs|] == defs;
    forall k | 0 <= k < |all|
      ensures Sits(later, all, defs, k)
    {
      if k < |ids| {
        assert Sits(now, ids, defs, k);
      }
    }
    assert Stacked(sem, before, later, root, all, defs);
    assert Some(id) == Below(all, |all|);
  }

  // ------------------------------------------------------------------
  // What every handler keeps
  // ------------------------------------------------------------------

  lemma ExecuteKeeps(sem: Semantics, before: Table, m: State, root: Definition, ids: seq<nat>,
                     defs: seq<Definition>, d: Definition, s: Session, msg: Message)
    requires Stacked(sem, before, m.sessions, root, ids, defs) && |defs| == |ids|
    requires if ids == [] then d == root else IsPrepared(sem, d)
    requires s.parent == Below(ids, |ids|) && s.wf == Effective(defs + [d])
    ensures HasStack(sem, before, Execute(sem, m, s, msg), root)
  {
    hide Effective, IsPrepared;
    var m' := Execute(sem, m, s, msg);
    var all := if m'.focus.Launch? || m'.focus.LaunchElse? then defs + [d] else defs;
    forall k | 0 <= k < |ids|
      ensures Sits(m'.sessions, ids, all, k)
    {
      assert Sits(m.sessions, ids, defs, k);
      assert all[..k + 1] == defs[..k + 1];
    }
    assert IsStack(sem, before, m', root, ids, all);
  }

  lemma CompleteKeeps(sem: Semantics, before: Table, m: State, root: Definition, id: nat, msg: Message)
    requires IsTop(sem, before, m.sessions, root, id) && id in m.sessions
    ensures HasStack(sem, before, Complete(sem, m, id, msg), root)
  {
    hide Stacked;
    var ids, defs :|
      Stacked(sem, before, m.sessions, root, ids, defs) && |ids| == |defs| && Some(id) == Below(ids, |ids|);
    var n := |ids| - 1;
    TopSits(sem, before, m.sessions, root, ids, defs);
    PopKeeps(sem, before, m.sessions, root, ids, defs);
    assert IsStack(sem, before, Complete(sem, m, id, msg), root, ids[..n], defs[..n]);
  }

  /** A child inherits from the session on top. */
  lemma SpawnKeeps(sem: Semantics, before: Table, m: State, root: Definition, id: nat, wf: Definition,
                   p: Prepared, s: Session, msg: Message)
    requires IsTop(sem, before, m.sessions, root, id) && id in m.sessions
    requires Spawn(sem, m.sessions[id].wf, m.sessions[id].ctx, wf, msg) == Some(p)
    requires s.parent == Some(id) && s.wf == p.wf
    ensures HasStack(sem, before, Execute(sem, m, s, msg), root)
  {
    hide Execute, Stacked;
    var ids, defs :|
      Stacked(sem, before, m.sessions, root, ids, defs) && |ids| == |defs| && Some(id) == Below(ids, |ids|);
    TopSits(sem, before, m.sessions, root, ids, defs);
    var d := sem.prepare(wf, m.sessions[id].ctx - {"hooks"}, msg).value.wf;
    assert IsPrepared(sem, d);
    assert (defs + [d])[..|defs|] == defs;
    ExecuteKeeps(sem, before, m, root, ids, defs, d, s, msg);
  }

  lemma ChildKeeps(sem: Semantics, before: Table, m: State, root: Definition, id: nat, wf: Definition, msg: Message)
    requires IsTop(sem, before, m.sessions, root, id) && id in m.sessions
    ensures HasStack(sem, before, ExecuteChild(sem, m, id, wf, msg), root)
  {
    hide IsTop, HasStack, Execute, Complete, Spawn;
    match Spawn(sem, m.sessions[id].wf, m.sessions[id].ctx, wf, msg)
    case None => CompleteKeeps(sem, before, m, root, id, ErrorMessage("prepare"));
    case Some(p) => SpawnKeeps(sem, before, m, root, id, wf, p, NewSession(Some(id), p), msg);
  }

  lemma StepsKeep(sem: Semantics, before: Table, m: State, root: Definition, id: nat,
                  steps: seq<Definition>, msg: Message)
    requires IsTop(sem, before, m.sessions, root, id) && id in m.sessions
    ensures HasStack(sem, before, ExecuteStep(sem, m, id, steps, msg), root)
  {
    hide IsTop, HasStack, Execute, Complete, Spawn;
    var s := m.sessions[id];
    if |steps| <= s.current {
      CompleteKeeps(sem, before, m, root, id, ErrorMessage("index"));
    } else {
      match Spawn(sem, s.wf, s.ctx, steps[s.current], msg)
      case None => CompleteKeeps(sem, before, m, root, id, ErrorMessage("prepare"));
      case Some(p) =>
        var q := p.(ctx := p.ctx["step_number" := Num(s.current)]);
        SpawnKeeps(sem, before, m, root, id, steps[s.current], p, NewSession(Some(id), q), msg);
    }
  }

  /** The session on top goes on with a reply of its own, or waits for a driver. */
  lemma GoesOn(sem: Semantics, before: Table, m: State, root: Definition, id: nat)
    requires IsTop(sem, before, m.sessions, root, id)
    requires match m.focus case Continue(i, _, _) => i == id case Await(i) => i == id case _ => false
    ensures HasStack(sem, before, m, root)
  {
    hide Stacked;
    var ids, defs :|
      Stacked(sem, before, m.sessions, root, ids, defs) && |ids| == |defs| && Some(id) == Below(ids, |ids|);
    assert IsStack(sem, before, m, root, ids, defs);
  }

  lemma ActionKeeps(sem: Semantics, before: Table, m: State, root: Definition, id: nat, msg: Message)
    requires IsTop(sem, before, m.sessions, root, id) && id in m.sessions
    ensures HasStack(sem, before, ExecuteAction(sem, m, id, msg), root)
  {
    hide IsTop, HasStack, Execute, Complete, ExecuteChild, ExecuteStep;
    var s := m.sessions[id];
    match s.wf.action
    case Call =>
      var name := sem.callee(s.wf, s.ctx, msg);
      var s1 := s.(ctx := BindCallee(s.wf, s.ctx, name));
      WriteKeeps(sem, before, m.sessions, root, id, s1);
      if name in sem.workflows {
        ChildKeeps(sem, before, m.Update(id, s1), root, id, Named(sem.workflows[name], name), msg);
      } else {
        CompleteKeeps(sem, before, m.Update(id, s1), root, id, ErrorMessage("not defined"));
      }
    case Invoke =>
      match sem.function_(s.wf, s.ctx, msg) {
        case None => CompleteKeeps(sem, before, m, root, id, ErrorMessage("function"));
        case Some(f) =>
          WriteKeeps(sem, before, m.sessions, root, id, s.(inFly := Some(f)));
          GoesOn(sem, before, ExecuteAction(sem, m, id, msg), root, id);
      }
    case Steps(steps) =>
      WriteKeeps(sem, before, m.sessions, root, id, s.(current := 0));
      StepsKeep(sem, before, m.Update(id, s.(current := 0)), root, id, steps, msg);
    case Switch(cases, fallback) =>
      var key := sem.switchKey(s.wf, s.ctx, msg);
      if key in cases {
        ChildKeeps(sem, before, m, root, id, cases[key], msg);
      } else if fallback.Some? {
        ChildKeeps(sem, before, m, root, id, fallback.value, msg);
      } else {
        GoesOn(sem, before, ExecuteAction(sem, m, id, msg), root, id);
      }
    case Nothing => GoesOn(sem, before, ExecuteAction(sem, m, id, msg), root, id);
  }

  lemma IterationKeeps(sem: Semantics, before: Table, m: State, root: Definition, id: nat, msg: Message)
    requires IsTop(sem, before, m.sessions, root, id) && id in m.sessions
    ensures HasStack(sem, before, ExecuteIteration(sem, m, id, msg), root)
  {
    hide IsTop, HasStack, ExecuteAction, Complete;
    var s := m.sessions[id];
    match s.wf.iterate
    case None => ActionKeeps(sem, before, m, root, id, msg);
    case Some(items) =>
      if |items| <= s.iteration {
        CompleteKeeps(sem, before, m, root, id, ErrorMessage("index"));
      } else {
        var s1 := s.(current := 0, ctx := BindItem(s.wf, s.ctx, items[s.iteration]));
        WriteKeeps(sem, before, m.sessions, root, id, s1);
        ActionKeeps(sem, before, m.Update(id, s1), root, id, msg);
      }
  }

  lemma RoundKeeps(sem: Semantics, before: Table, m: State, root: Definition, id: nat, msg: Message)
    requires IsTop(sem, before, m.sessions, root, id) && id in m.sessions
    ensures HasStack(sem, before, ExecuteRound(sem, m, id, msg), root)
  {
    hide IsTop, HasStack, ExecuteIteration;
    var s := m.sessions[id];
    if s.wf.isLoop {
      var s1 := s.(ctx := BindLoop(s.wf, s.ctx, s.loopCount), iteration := 0, current := 0);
      WriteKeeps(sem, before, m.sessions, root, id, s1);
      IterationKeeps(sem, before, m.Update(id, s1), root, id, msg);
    } else {
      IterationKeeps(sem, before, m, root, id, msg);
    }
  }

  lemma ContinueKeeps(sem: Semantics, before: Table, m: State, root: Definition, id: nat,
                      msg: Message, exports: seq<Ctx>)
    requires IsTop(sem, before, m.sessions, root, id) && id in m.sessions
    ensures HasStack(sem, before, ContinueExec(sem, m, id, msg, exports), root)
  {
    hide IsTop, HasStack, ExecuteStep, ExecuteIteration, ExecuteRound, Complete, Absorb;
    var s := m.sessions[id];
    var s1 := s.WithData(Absorb(sem, s.wf, s.Data(), exports));
    var next := s1.(current := s.current + 1);
    WriteKeeps(sem, before, m.sessions, root, id, s1);
    WriteKeeps(sem, before, m.sessions, root, id, next);
    WriteKeeps(sem, before, m.Update(id, s1).sessions, root, id, s1.(iteration := s1.iteration + 1));
    WriteKeeps(sem, before, m.Update(id, s1).sessions, root, id, s1.(loopCount := s1.loopCount + 1));
    var m1 := m.Update(id, s1);
    CompleteKeeps(sem, before, m1, root, id, msg);
    if s.wf.action.Steps? {
      StepsKeep(sem, before, m.Update(id, next), root, id, s.wf.action.steps, msg);
    }
    IterationKeeps(sem, before, m1.Update(id, s1.(iteration := s1.iteration + 1)), root, id, msg);
    RoundKeeps(sem, before, m1.Update(id, s1.(loopCount := s1.loopCount + 1)), root, id, msg);
  }

  // ------------------------------------------------------------------
  // Every state of every run
  // ------------------------------------------------------------------

  lemma SavedIsTop(sem: Semantics, before: Table, m: State, root: Definition, s: Session)
    requires HasStack(sem, before, m, root) && m.Wf() && IdMap.HasFree(m.sessions.Keys, IdMap.MAX_ID)
    requires match m.focus case Launch(t, _) => t == s case LaunchElse(t, _) => t == s case _ => false
    ensures var (m1, id) := Save(m, s); IsTop(sem, before, m1.sessions, root, id)
  {
    hide Effective, Stacked;
    var ids, defs :| IsStack(sem, before, m, root, ids, defs);
    var (m1, id) := Save(m, s);
    PushKeeps(sem, before, m.sessions, root, ids, defs, id, s);
  }

  lemma FocusIsTop(sem: Semantics, before: Table, m: State, root: Definition, id: nat)
    requires HasStack(sem, before, m, root)
    requires match m.focus case Continue(i, _, _) => i == id case Await(i) => i == id case _ => false
    ensures IsTop(sem, before, m.sessions, root, id)
  {
    hide Stacked;
    var ids, defs :| IsStack(sem, before, m, root, ids, defs);
  }

  lemma StepKeeps(sem: Semantics, driver: Driver, before: Table, m: State, root: Definition)
    requires HasStack(sem, before, m, root)
    ensures HasStack(sem, before, Step(sem, driver, m), root)
  {
    hide HasStack, IsTop, ExecuteRound, ExecuteChild, ContinueExec, IdMap.HasFree;
    match m.focus
    case Launch(s, msg) =>
      if m.Wf() && IdMap.HasFree(m.sessions.Keys, IdMap.MAX_ID) {
        SavedIsTop(sem, before, m, root, s);
        RoundKeeps(sem, before, Save(m, s).0, root, Save(m, s).1, msg);
      }
    case LaunchElse(s, msg) =>
      if m.Wf() && IdMap.HasFree(m.sessions.Keys, IdMap.MAX_ID) && s.wf.otherwise.Some? {
        SavedIsTop(sem, before, m, root, s);
        ChildKeeps(sem, before, Save(m, s).0, root, Save(m, s).1, s.wf.otherwise.value, msg);
      }
    case Continue(id, msg, exports) =>
      FocusIsTop(sem, before, m, root, id);
      TopIsThere(sem, before, m.sessions, root, id);
      ContinueKeeps(sem, before, m, root, id, msg, exports);
    case Await(id) =>
      FocusIsTop(sem, before, m, root, id);
      GoesOn(sem, before, Step(sem, driver, m), root, id);
    case Idle =>
  }

  lemma StartStack(sem: Semantics, m: State, p: Prepared, msg: Message)
    ensures HasStack(sem, m.sessions, Start(sem, m, p, msg), p.wf)
  {
    hide Execute;
    assert Effective([] + [p.wf]) == p.wf;
    ExecuteKeeps(sem, m.sessions, m, p.wf, [], [], p.wf, NewSession(None, p), msg);
  }

  lemma {:induction false} RunKeeps(sem: Semantics, driver: Driver, before: Table, m: State, root: Definition, n: nat)
    requires HasStack(sem, before, m, root)
    ensures HasStack(sem, before, Run(sem, driver, m, n), root)
    decreases n
  {
    hide HasStack, Step;
    if n > 0 {
      StepKeeps(sem, driver, before, m, root);
      RunKeeps(sem, driver, before, Step(sem, driver, m), root, n - 1);
    }
  }

  /** Below `k`, definition `i` is the nearest that has a setting; the root has the last word. */
  predicate Nearest(settings: seq<string>, i: nat, k: nat) {
    && i <= k < |settings|
    && (settings[i] != "" || i == 0)
    && (forall j :: i < j <= k ==> settings[j] == "")
  }

  function OnErrors(defs: seq<Definition>): (r: seq<string>)
    ensures |r| == |defs| && forall i :: 0 <= i < |r| ==> r[i] == defs[i].onError
  {
    seq(|defs|, i requires 0 <= i < |defs| => defs[i].onError)
  }

  function OnFailures(defs: seq<Definition>): (r: seq<string>)
    ensures |r| == |defs| && forall i :: 0 <= i < |r| ==> r[i] == defs[i].onFailure
  {
    seq(|defs|, i requires 0 <= i < |defs| => defs[i].onFailure)
  }

  ghost predicate GoesByNearest(now: Table, ids: seq<nat>, defs: seq<Definition>) {
    forall i: nat, k: nat :: k < |ids| && ids[k] in now ==>
      && (Nearest(OnErrors(defs), i, k) ==> now[ids[k]].wf.onError == defs[i].onError)
      && (Nearest(OnFailures(defs), i, k) ==> now[ids[k]].wf.onFailure == defs[i].onFailure)
  }

  lemma StackedGoesByNearest(sem: Semantics, before: Table, now: Table, root: Definition,
                             ids: seq<nat>, defs: seq<Definition>)
    requires Stacked(sem, before, now, root, ids, defs)
    ensures GoesByNearest(now, ids, defs)
  {
    hide Effective, Holds, Prepareds;
    forall i: nat, k: nat | k < |ids| && ids[k] in now
      ensures Nearest(OnErrors(defs), i, k) ==> now[ids[k]].wf.onError == defs[i].onError
      ensures Nearest(OnFailures(defs), i, k) ==> now[ids[k]].wf.onFailure == defs[i].onFailure
    {
      assert Sits(now, ids, defs, k);
      if Nearest(OnErrors(defs), i, k) {
        NearestDecides(defs[..k + 1], i);
      }
      if Nearest(OnFailures(defs), i, k) {
        NearestDecidesFailure(defs[..k + 1], i);
      }
    }
  }

  /**
   In every state of every run the sessions of the root workflow form a stack on top of those
   that were there before, which nobody touches; and each goes by the settings of the nearest
   definition below it that has them, as it was prepared.
   */
  lemma SettingsAreNearest(sem: Semantics, driver: Driver, m: State, p: Prepared, msg: Message, n: nat)
    returns (ids: seq<nat>, defs: seq<Definition>)
    ensures var now := Run(sem, driver, Start(sem, m, p, msg), n);
            IsStack(sem, m.sessions, now, p.wf, ids, defs) && GoesByNearest(now.sessions, ids, defs)
  {
    hide Run, Start, Stacked, GoesByNearest;
    var now := Run(sem, driver, Start(sem, m, p, msg), n);
    StartStack(sem, m, p, msg);
    RunKeeps(sem, driver, m.sessions, Start(sem, m, p, msg), p.wf, n);
    ids, defs :| IsStack(sem, m.sessions, now, p.wf, ids, defs);
    StackedGoesByNearest(sem, m.sessions, now.sessions, p.wf, ids, defs);
  }
}
