/**
 The session machine computes what the recursive evaluator prescribes: the same commands in
 the same order, the same final message, exports and context, and a store as it was before.
 The machine stops exactly when the evaluator has an answer.
 */
module Refinement {
  import opened Values
  import opened Workflow
  import opened Evaluator
  import opened Machine
  import EvaluatorFuel
  import IdMap
  import Lists

  /** The IDs left for new sessions. */
  function Room(m: State): nat
    requires m.Wf()
  {
    IdMap.FreeIffRoom(m.sessions.Keys, IdMap.MAX_ID);
    Lists.SubsetSize(m.sessions.Keys, Lists.Below(IdMap.MAX_ID));
    IdMap.MAX_ID - |m.sessions|
  }

  /** Work was done on session `id` alone, leaving it with the data of `flow`. */
  ghost predicate Worked(m: State, m': State, id: nat, flow: Flow)
    requires id in m.sessions
  {
    && m'.Wf()
    && id in m'.sessions
    && m'.sessions == m.sessions[id := m.sessions[id].WithData(flow.frame)
                                       .(current := m'.sessions[id].current,
                                         iteration := m'.sessions[id].iteration,
                                         loopCount := m'.sessions[id].loopCount)]
    && m'.commands == flow.log
    && m'.final == m.final
  }

  /** A session that started from `m` has handed `r` to its parent and is gone. */
  ghost predicate Delivered(m: State, m': State, parent: Option<nat>, r: Reply) {
    && m'.Wf()
    && m'.sessions == m.sessions
    && m'.commands == r.log
    && m'.focus == (if parent.Some? then Continue(parent.value, r.msg, r.exports) else Idle)
    && m'.final == (if parent.None? && r.ran then Some(Final(r.msg, r.ctx)) else m.final)
  }

  ghost predicate Busy(sem: Semantics, driver: Driver, m: State, n: nat) {
    !Run(sem, driver, m, n).focus.Idle?
  }

  lemma {:induction false} RunSum(sem: Semantics, driver: Driver, m: State, a: nat, b: nat)
    ensures Run(sem, driver, m, a + b) == Run(sem, driver, Run(sem, driver, m, a), b)
    decreases a
  {
    hide Step;
    if a == 0 {
    } else {
      RunSum(sem, driver, Step(sem, driver, m), a - 1, b);
    }
  }

  lemma {:induction false} Stuck(sem: Semantics, driver: Driver, m: State, n: nat)
    requires Step(sem, driver, m) == m
    ensures Run(sem, driver, m, n) == m
    decreases n
  {
    hide Step;
    if n == 0 {
    } else {
      Stuck(sem, driver, m, n - 1);
    }
  }

  /** Prefixing steps, in the form the proofs below use. */
  lemma {:induction false} Then(sem: Semantics, driver: Driver, m: State, a: nat, m1: State, b: nat) returns (n: nat)
    requires Run(sem, driver, m, a) == m1
    ensures n == a + b
    ensures Run(sem, driver, m, n) == Run(sem, driver, m1, b)
  {
    n := a + b;
    RunSum(sem, driver, m, a, b);
  }

  lemma NoStep(sem: Semantics, driver: Driver, m: State)
    ensures Run(sem, driver, m, 0) == m
  {
  }

  lemma {:induction false} OneStep(sem: Semantics, driver: Driver, m: State)
    ensures Run(sem, driver, m, 1) == Step(sem, driver, m)
  {
    assert Run(sem, driver, Step(sem, driver, m), 0) == Step(sem, driver, m);
  }

  lemma LaunchStep(sem: Semantics, driver: Driver, m: State, s: Session, msg: Message) returns (m1: State, id: nat)
    requires m.Wf() && 0 < Room(m)
    ensures m1.Wf() && id !in m.sessions && m1.sessions == m.sessions[id := s]
    ensures m1.commands == m.commands && m1.final == m.final
    ensures Room(m1) == Room(m) - 1
    ensures Run(sem, driver, m.(focus := Launch(s, msg)), 1) == ExecuteRound(sem, m1, id, msg)
    ensures s.wf.otherwise.Some? ==>
              Run(sem, driver, m.(focus := LaunchElse(s, msg)), 1)
              == ExecuteChild(sem, m1.(focus := LaunchElse(s, msg)), id, s.wf.otherwise.value, msg)
  {
    hide ExecuteRound, ExecuteChild, ContinueExec;
    IdMap.FreeIffRoom(m.sessions.Keys, IdMap.MAX_ID);
    var start := m.(focus := Launch(s, msg));
    var saved := Save(start, s);
    m1, id := saved.0, saved.1;
    assert m1.sessions.Keys == m.sessions.Keys + {id};
    OneStep(sem, driver, start);
    OneStep(sem, driver, m.(focus := LaunchElse(s, msg)));
    assert Save(m.(focus := LaunchElse(s, msg)), s) == (m1.(focus := LaunchElse(s, msg)), id);
  }

  /** A reply reaches a session and one of its steps follows. */
  lemma NextStep(sem: Semantics, driver: Driver, m: State, id: nat, msg: Message, exports: seq<Ctx>)
    requires id in m.sessions && !m.sessions[id].inElse && !Exits(m.sessions[id].wf, msg)
    requires m.sessions[id].wf.action.Steps? && m.sessions[id].current + 1 < |m.sessions[id].wf.action.steps|
    requires m.focus == Continue(id, msg, exports)
    ensures var s := m.sessions[id];
            var s1 := s.WithData(Absorb(sem, s.wf, s.Data(), exports)).(current := s.current + 1);
            Run(sem, driver, m, 1) == ExecuteStep(sem, m.Update(id, s1), id, s.wf.action.steps, msg)
  {
    hide ExecuteStep, Complete, AfterAction;
    OneStep(sem, driver, m);
  }

  /** A reply reaches a session that runs its else branch: it is passed on. */
  lemma ElseReply(sem: Semantics, driver: Driver, m: State, back: State, id: nat, s: Session, r: Reply)
    requires m.Wf() && back.Wf() && id !in m.sessions && s.inElse
    requires back.sessions == m.sessions[id := s]
    requires back.focus == Continue(id, r.msg, r.exports)
    requires back.final == m.final && back.commands == r.log
    ensures var fr := Absorb(sem, s.wf, s.Data(), r.exports);
            Delivered(m, Run(sem, driver, back, 1), s.parent, Reply(true, r.msg, fr.exported, fr.ctx, r.log))
  {
    hide ExecuteStep, AfterAction, Absorb;
    OneStep(sem, driver, back);
    var s1 := s.WithData(Absorb(sem, s.wf, s.Data(), r.exports));
    assert back.Update(id, s1).sessions - {id} == m.sessions;
  }

  lemma {:induction false} SessionRuns(sem: Semantics, driver: Driver, fuel: nat, m: State, parent: Option<nat>,
                    p: Prepared, msg: Message) returns (n: nat)
    requires m.Wf()
    requires parent.Some? ==> parent.value in m.sessions
    ensures var start := Execute(sem, m, NewSession(parent, p), msg);
            var r := Evaluator.Session(sem, driver, fuel, Room(m), p, msg, m.commands);
            if r.None? then fuel <= n && Busy(sem, driver, start, n)
            else Delivered(m, Run(sem, driver, start, n), parent, r.value)
    decreases fuel, 0
  {
    hide Rounds, Else, ContinueExec, LaunchSession, LaunchElseBranch;
    var s := NewSession(parent, p);
    var start := Execute(sem, m, s, msg);
    IdMap.FreeIffRoom(m.sessions.Keys, IdMap.MAX_ID);
    if start.focus.Launch? {
      if fuel == 0 {
        n := 0;
      } else if Room(m) == 0 {
        n := fuel;
        Stuck(sem, driver, start, n);
      } else {
        n := LaunchRuns(sem, driver, fuel, m, s, msg);
      }
    } else if start.focus.LaunchElse? {
      if fuel == 0 {
        n := 0;
      } else if Room(m) == 0 {
        n := fuel;
        Stuck(sem, driver, start, n);
      } else {
        n := ElseRuns(sem, driver, fuel, m, p, parent, msg);
      }
    } else {
      n := 0;
    }
  }

  lemma {:induction false} LaunchRuns(sem: Semantics, driver: Driver, fuel: nat, m: State, s: Session,
                                      msg: Message) returns (n: nat)
    requires m.Wf() && 0 < fuel && 0 < Room(m)
    requires s == NewSession(s.parent, Prepared(s.wf, s.ctx))
    requires s.parent.Some? ==> s.parent.value in m.sessions
    ensures var start := m.(focus := Launch(s, msg));
            var r := Rounds(sem, driver, fuel - 1, Room(m) - 1, s.wf, 0, Frame(s.ctx, [], None), msg, m.commands);
            if r.None? then fuel <= n && Busy(sem, driver, start, n)
            else Delivered(m, Run(sem, driver, start, n), s.parent, Finish(sem, s.wf, r.value))
    decreases fuel - 1, 5
  {
    hide ExecuteRound, Rounds, Run, IdMap.Bounded;
    var start := m.(focus := Launch(s, msg));
    var m1, id := LaunchStep(sem, driver, m, s, msg);
    var k, m2 := RoundsRun(sem, driver, fuel - 1, m1, id, msg);
    n := Then(sem, driver, start, 1, ExecuteRound(sem, m1, id, msg), k);
    var r := Rounds(sem, driver, fuel - 1, Room(m) - 1, s.wf, 0, Frame(s.ctx, [], None), msg, m.commands);
    if r.Some? {
      assert m2.sessions - {id} == m.sessions;
    }
  }

  lemma {:induction false} ElseRuns(sem: Semantics, driver: Driver, fuel: nat, m: State, p: Prepared,
                                    parent: Option<nat>, msg: Message) returns (n: nat)
    requires m.Wf() && 0 < fuel && 0 < Room(m)
    requires p.wf.otherwise.Some?
    requires parent.Some? ==> parent.value in m.sessions
    ensures var start := m.(focus := LaunchElse(NewSession(parent, p).(inElse := true), msg));
            var r := Else(sem, driver, fuel, Room(m), p, p.wf.otherwise.value, msg, m.commands);
            if r.None? then fuel <= n && Busy(sem, driver, start, n)
            else Delivered(m, Run(sem, driver, start, n), parent, r.value)
    decreases fuel - 1, 5
  {
    hide Evaluator.Session, Execute, Complete, Run, Absorb, Spawn, Delivered, ExecuteChild;
    var s := NewSession(parent, p).(inElse := true);
    var start := m.(focus := LaunchElse(s, msg));
    var m1, id := ElseStep(sem, driver, m, s, msg);
    match Spawn(sem, p.wf, p.ctx, p.wf.otherwise.value, msg)
    case None =>
      n := 1;
      ElseFails(sem, driver, m, m1, id, start);
    case Some(c) =>
      n := BranchRuns(sem, driver, fuel - 1, m, m1, id, c, msg);
      n := Then(sem, driver, start, 1, Execute(sem, m1, NewSession(Some(id), c), msg), n);
  }

  /** The session is saved and its branch prepared. */
  lemma ElseStep(sem: Semantics, driver: Driver, m: State, s: Session, msg: Message) returns (m1: State, id: nat)
    requires m.Wf() && 0 < Room(m) && s.wf.otherwise.Some?
    ensures m1.Wf() && id !in m.sessions && m1.sessions == m.sessions[id := s] && m1.sessions - {id} == m.sessions
    ensures m1.commands == m.commands && m1.final == m.final
    ensures Room(m1) == Room(m) - 1
    ensures Run(sem, driver, m.(focus := LaunchElse(s, msg)), 1)
            == match Spawn(sem, s.wf, s.ctx, s.wf.otherwise.value, msg)
               case None => Complete(sem, m1, id, ErrorMessage("prepare"))
               case Some(c) => Execute(sem, m1, NewSession(Some(id), c), msg)
  {
    hide Execute, Complete, Run, Spawn;
    m1, id := LaunchStep(sem, driver, m, s, msg);
    m1 := m1.(focus := LaunchElse(s, msg));
  }

  /** A branch that cannot be prepared completes its session with an error. */
  lemma ElseFails(sem: Semantics, driver: Driver, m: State, m1: State, id: nat, start: State)
    requires m.Wf() && m1.Wf() && id in m1.sessions && m1.sessions[id].inElse && m1.sessions - {id} == m.sessions
    requires m1.final == m.final && m1.commands == m.commands && m1.sessions[id].exported == []
    requires Run(sem, driver, start, 1) == Complete(sem, m1, id, ErrorMessage("prepare"))
    ensures Delivered(m, Run(sem, driver, start, 1), m1.sessions[id].parent,
                      Reply(true, ErrorMessage("prepare"), [], m1.sessions[id].ctx, m.commands))
  {
    hide Run;
  }

  /** The branch's session, and then the session that waits for it. */
  lemma {:induction false} BranchRuns(sem: Semantics, driver: Driver, fuel: nat, m: State, m1: State, id: nat,
                                      c: Prepared, msg: Message) returns (n: nat)
    requires m.Wf() && m1.Wf() && id !in m.sessions && id in m1.sessions && m1.sessions[id].inElse
    requires m1.sessions == m.sessions[id := m1.sessions[id]]
    requires m1.final == m.final
    ensures var s := m1.sessions[id];
            var start := Execute(sem, m1, NewSession(Some(id), c), msg);
            var r := Evaluator.Session(sem, driver, fuel, Room(m1), c, msg, m1.commands);
            if r.None? then fuel <= n && Busy(sem, driver, start, n)
            else
              var fr := Absorb(sem, s.wf, s.Data(), r.value.exports);
              Delivered(m, Run(sem, driver, start, n), s.parent,
                        Reply(true, r.value.msg, fr.exported, fr.ctx, r.value.log))
    decreases fuel, 1
  {
    hide Evaluator.Session, Execute, Run, Absorb;
    var start := Execute(sem, m1, NewSession(Some(id), c), msg);
    n := SessionRuns(sem, driver, fuel, m1, Some(id), c, msg);
    var r := Evaluator.Session(sem, driver, fuel, Room(m1), c, msg, m1.commands);
    if r.Some? {
      var back := Run(sem, driver, start, n);
      ElseReply(sem, driver, m, back, id, m1.sessions[id], r.value);
      n := Then(sem, driver, start, n, back, 1);
    }
  }

  lemma {:induction false} RoundsRun(sem: Semantics, driver: Driver, fuel: nat, m: State, id: nat, msg: Message)
    returns (n: nat, m': State)
    requires m.Wf() && id in m.sessions && !m.sessions[id].inElse
    requires m.sessions[id].wf.isLoop || m.sessions[id].iteration == 0
    ensures var s := m.sessions[id];
            var start := ExecuteRound(sem, m, id, msg);
            var r := Rounds(sem, driver, fuel, Room(m), s.wf, s.loopCount, s.Data(), msg, m.commands);
            if r.None? then fuel <= n && Busy(sem, driver, start, n)
            else Worked(m, m', id, r.value) && Run(sem, driver, start, n) == Complete(sem, m', id, r.value.msg)
    decreases fuel, 4
  {
    hide ExecuteIteration, Items, Complete, Run, IdMap.Bounded;
    var s := m.sessions[id];
    var start := ExecuteRound(sem, m, id, msg);
    NoStep(sem, driver, start);
    var s1 := if s.wf.isLoop
              then s.(ctx := BindLoop(s.wf, s.ctx, s.loopCount), iteration := 0, current := 0)
              else s;
    var m1 := m.Update(id, s1);
    assert m1.sessions.Keys == m.sessions.Keys;
    assert !s.wf.isLoop ==> m1 == m;
    n, m' := ItemsRun(sem, driver, fuel, m1, id, msg);
    var r := Items(sem, driver, fuel, Room(m), s.wf, 0, s1.Data(), msg, m.commands);
    if r.Some? && !r.value.exit && s.wf.isLoop
       && sem.loopCondition(s.wf, r.value.frame.ctx, r.value.msg) {
      var s2 := m'.sessions[id];
      var m2 := m'.Update(id, s2.(loopCount := s2.loopCount + 1));
      assert m2.sessions.Keys == m.sessions.Keys;
      if fuel == 0 {
        n := 0;
      } else {
        var k, m3 := RoundsRun(sem, driver, fuel - 1, m2, id, r.value.msg);
        n := Then(sem, driver, start, n, ExecuteRound(sem, m2, id, r.value.msg), k);
        m' := m3;
      }
    }
  }

  lemma {:induction false} ItemsRun(sem: Semantics, driver: Driver, fuel: nat, m: State, id: nat, msg: Message)
    returns (n: nat, m': State)
    requires m.Wf() && id in m.sessions && !m.sessions[id].inElse
    ensures var s := m.sessions[id];
            var start := ExecuteIteration(sem, m, id, msg);
            var r := Items(sem, driver, fuel, Room(m), s.wf, s.iteration, s.Data(), msg, m.commands);
            if r.None? then fuel <= n && Busy(sem, driver, start, n)
            else
              && Worked(m, m', id, r.value)
              && m'.sessions[id].loopCount == s.loopCount
              && (if r.value.exit then Run(sem, driver, start, n) == Complete(sem, m', id, r.value.msg)
                  else
                    && 1 <= n && !start.focus.Idle?
                    && Run(sem, driver, start, n) == AfterItems(sem, m', id, r.value.msg))
    decreases fuel, 3
  {
    hide ExecuteAction, Act, Complete, AfterItems, Run, IdMap.Bounded;
    var s := m.sessions[id];
    var start := ExecuteIteration(sem, m, id, msg);
    NoStep(sem, driver, start);
    match s.wf.iterate
    case None =>
      n, m' := ActRuns(sem, driver, fuel, m, id, msg);
    case Some(items) =>
      if |items| <= s.iteration {
        n, m' := 0, m;
        assert m'.sessions == m.sessions[id := s];
      } else {
        var s1 := s.(current := 0, ctx := BindItem(s.wf, s.ctx, items[s.iteration]));
        var m1 := m.Update(id, s1);
        assert m1.sessions.Keys == m.sessions.Keys;
        n, m' := ActRuns(sem, driver, fuel, m1, id, msg);
        var r := Act(sem, driver, fuel, Room(m), s.wf, s1.Data(), msg, m.commands);
        if r.Some? && !r.value.exit && s.iteration + 1 < |items| {
          if fuel == 0 {
            n := 0;
          } else {
            var s2 := m'.sessions[id];
            var m2 := m'.Update(id, s2.(iteration := s2.iteration + 1));
            assert m2.sessions.Keys == m.sessions.Keys;
            var k, m3 := ItemsRun(sem, driver, fuel - 1, m2, id, r.value.msg);
            n := Then(sem, driver, start, n, ExecuteIteration(sem, m2, id, r.value.msg), k);
            m' := m3;
          }
        }
      }
  }

  /** The action of one item is over: the session completes or goes on. */
  ghost predicate Acted(sem: Semantics, driver: Driver, m: State, start: State, n: nat, m': State, id: nat, flow: Flow)
    requires id in m.sessions
  {
    && Worked(m, m', id, flow)
    && m'.sessions[id].loopCount == m.sessions[id].loopCount
    && m'.sessions[id].iteration == m.sessions[id].iteration
    && (if flow.exit then Run(sem, driver, start, n) == Complete(sem, m', id, flow.msg)
        else
          && 1 <= n && !start.focus.Idle?
          && Run(sem, driver, start, n) == AfterAction(sem, m', id, flow.msg))
  }

  /** After `n` steps the action ends as the evaluator says, or is not over yet. */
  ghost predicate ActsLike(sem: Semantics, driver: Driver, fuel: nat, m: State, id: nat, msg: Message,
                           n: nat, m': State)
    requires m.Wf() && id in m.sessions
  {
    var s := m.sessions[id];
    var start := ExecuteAction(sem, m, id, msg);
    var r := Act(sem, driver, fuel, Room(m), s.wf, s.Data(), msg, m.commands);
    if r.None? then fuel <= n && Busy(sem, driver, start, n)
    else Acted(sem, driver, m, start, n, m', id, r.value)
  }

  lemma {:induction false} ActRuns(sem: Semantics, driver: Driver, fuel: nat, m: State, id: nat, msg: Message)
    returns (n: nat, m': State)
    requires m.Wf() && id in m.sessions && !m.sessions[id].inElse
    ensures ActsLike(sem, driver, fuel, m, id, msg, n, m')
    decreases fuel, 2, 1
  {
    hide ActsLike;
    match m.sessions[id].wf.action
    case Call => n, m' := CallRuns(sem, driver, fuel, m, id, msg);
    case Invoke => n, m' := InvokeRuns(sem, driver, fuel, m, id, msg);
    case Steps(_) => n, m' := ListRuns(sem, driver, fuel, m, id, msg);
    case Switch(_, _) => n, m' := SwitchRuns(sem, driver, fuel, m, id, msg);
    case Nothing => n, m' := NothingRuns(sem, driver, fuel, m, id, msg);
  }

  lemma {:induction false} CallRuns(sem: Semantics, driver: Driver, fuel: nat, m: State, id: nat, msg: Message)
    returns (n: nat, m': State)
    requires m.Wf() && id in m.sessions && !m.sessions[id].inElse && m.sessions[id].wf.action.Call?
    ensures ActsLike(sem, driver, fuel, m, id, msg, n, m')
    decreases fuel, 2, 0
  {
    hide Child, ExecuteChild, Complete, AfterAction, Run;
    var s := m.sessions[id];
    var name := sem.callee(s.wf, s.ctx, msg);
    var m1 := m.Update(id, s.(ctx := BindCallee(s.wf, s.ctx, name)));
    assert m1.sessions.Keys == m.sessions.Keys;
    if name in sem.workflows {
      n, m' := ChildRuns(sem, driver, fuel, m1, id, Named(sem.workflows[name], name), msg);
    } else {
      n, m' := 0, m1;
      NoStep(sem, driver, ExecuteAction(sem, m, id, msg));
    }
  }

  lemma {:induction false} ListRuns(sem: Semantics, driver: Driver, fuel: nat, m: State, id: nat, msg: Message)
    returns (n: nat, m': State)
    requires m.Wf() && id in m.sessions && !m.sessions[id].inElse && m.sessions[id].wf.action.Steps?
    ensures ActsLike(sem, driver, fuel, m, id, msg, n, m')
    decreases fuel, 2, 0
  {
    hide StepsFrom, ExecuteStep, Complete, AfterAction, Run;
    var s := m.sessions[id];
    var m1 := m.Update(id, s.(current := 0));
    assert m1.sessions.Keys == m.sessions.Keys;
    n, m' := StepsRun(sem, driver, fuel, m1, id, s.wf.action.steps, msg);
  }

  lemma {:induction false} SwitchRuns(sem: Semantics, driver: Driver, fuel: nat, m: State, id: nat, msg: Message)
    returns (n: nat, m': State)
    requires m.Wf() && id in m.sessions && !m.sessions[id].inElse && m.sessions[id].wf.action.Switch?
    ensures ActsLike(sem, driver, fuel, m, id, msg, n, m')
    decreases fuel, 2, 0
  {
    hide Child, ExecuteChild, Complete, AfterAction, Run, Acted;
    var s := m.sessions[id];
    var key := sem.switchKey(s.wf, s.ctx, msg);
    if key in s.wf.action.cases {
      n, m' := ChildRuns(sem, driver, fuel, m, id, s.wf.action.cases[key], msg);
    } else if s.wf.action.fallback.Some? {
      n, m' := ChildRuns(sem, driver, fuel, m, id, s.wf.action.fallback.value, msg);
    } else {
      n, m' := ReplyRuns(sem, driver, m, ExecuteAction(sem, m, id, msg), id, SuccessOf(msg), []);
    }
  }

  lemma {:induction false} NothingRuns(sem: Semantics, driver: Driver, fuel: nat, m: State, id: nat, msg: Message)
    returns (n: nat, m': State)
    requires m.Wf() && id in m.sessions && !m.sessions[id].inElse && m.sessions[id].wf.action.Nothing?
    ensures ActsLike(sem, driver, fuel, m, id, msg, n, m')
  {
    hide Complete, AfterAction, Run, Acted;
    n, m' := ReplyRuns(sem, driver, m, ExecuteAction(sem, m, id, msg), id, SuccessMessage(), []);
  }

  /** A reply reaches a session whose action is not a list of steps. */
  lemma {:induction false} ReplyRuns(sem: Semantics, driver: Driver, m: State, m1: State, id: nat,
                                     msg: Message, exports: seq<Ctx>)
    returns (n: nat, m': State)
    requires m.Wf() && id in m.sessions && !m.sessions[id].inElse
    requires Exits(m.sessions[id].wf, msg) || !m.sessions[id].wf.action.Steps?
             || |m.sessions[id].wf.action.steps| <= m.sessions[id].current + 1
    requires m1.Wf() && m1.sessions == m.sessions && m1.final == m.final
    requires m1.focus == Continue(id, msg, exports)
    ensures var s := m.sessions[id];
            Acted(sem, driver, m, m1, n, m', id,
                  Flow(Absorb(sem, s.wf, s.Data(), exports), msg, Exits(s.wf, msg), m1.commands))
  {
    var s := m.sessions[id];
    n, m' := 1, m1.Update(id, s.WithData(Absorb(sem, s.wf, s.Data(), exports)));
    assert m'.sessions.Keys == m.sessions.Keys;
    OneStep(sem, driver, m1);
  }

  lemma {:induction false} InvokeRuns(sem: Semantics, driver: Driver, fuel: nat, m: State, id: nat, msg: Message)
    returns (n: nat, m': State)
    requires m.Wf() && id in m.sessions && !m.sessions[id].inElse && m.sessions[id].wf.action.Invoke?
    ensures ActsLike(sem, driver, fuel, m, id, msg, n, m')
  {
    hide Complete, AfterAction, Run;
    var s := m.sessions[id];
    var start := ExecuteAction(sem, m, id, msg);
    match sem.function_(s.wf, s.ctx, msg)
    case None =>
      n, m' := 0, m;
      NoStep(sem, driver, start);
      assert m'.sessions == m.sessions[id := s];
    case Some(f) =>
      assert start.sessions.Keys == m.sessions.Keys;
      OneStep(sem, driver, start);
      var asked := Step(sem, driver, start);
      var k;
      k, m' := ReplyRuns(sem, driver, start, asked, id, driver(start.commands), []);
      n := Then(sem, driver, start, 1, asked, k);
  }

  lemma {:induction false} ChildRuns(sem: Semantics, driver: Driver, fuel: nat, m: State, id: nat,
                                     child: Definition, msg: Message)
    returns (n: nat, m': State)
    requires m.Wf() && id in m.sessions && !m.sessions[id].inElse
    requires !m.sessions[id].wf.action.Steps?
    ensures var s := m.sessions[id];
            var start := ExecuteChild(sem, m, id, child, msg);
            var r := Child(sem, driver, fuel, Room(m), s.wf, s.Data(), child, msg, m.commands);
            if r.None? then fuel <= n && Busy(sem, driver, start, n)
            else Acted(sem, driver, m, start, n, m', id, r.value)
    decreases fuel, 1
  {
    hide Execute, Evaluator.Session, AfterAction, Run, Absorb, IdMap.Bounded;
    var s := m.sessions[id];
    var start := ExecuteChild(sem, m, id, child, msg);
    m' := m;
    match Spawn(sem, s.wf, s.ctx, child, msg)
    case None =>
      n := 0;
      NoStep(sem, driver, start);
      assert m'.sessions == m.sessions[id := s];
    case Some(p) =>
      n := SessionRuns(sem, driver, fuel, m, Some(id), p, msg);
      ChildIsBusy(sem, m, id, p, msg);
      var r := Evaluator.Session(sem, driver, fuel, Room(m), p, msg, m.commands);
      if r.Some? {
        var back := Run(sem, driver, start, n);
        var k;
        k, m' := ReplyRuns(sem, driver, m, back, id, r.value.msg, r.value.exports);
        n := Then(sem, driver, start, n, back, k);
      }
  }

  lemma ChildIsBusy(sem: Semantics, m: State, parent: nat, p: Prepared, msg: Message)
    ensures !Execute(sem, m, NewSession(Some(parent), p), msg).focus.Idle?
  {
  }

  lemma {:induction false} StepsRun(sem: Semantics, driver: Driver, fuel: nat, m: State, id: nat,
                                    steps: seq<Definition>, msg: Message)
    returns (n: nat, m': State)
    requires m.Wf() && id in m.sessions && !m.sessions[id].inElse
    requires m.sessions[id].wf.action == Steps(steps)
    ensures var s := m.sessions[id];
            var start := ExecuteStep(sem, m, id, steps, msg);
            var r := StepsFrom(sem, driver, fuel, Room(m), s.wf, steps, s.current, s.Data(), msg, m.commands);
            if r.None? then fuel <= n && Busy(sem, driver, start, n)
            else Acted(sem, driver, m, start, n, m', id, r.value)
    decreases fuel, 1
  {
    hide Execute, Complete, Evaluator.Session, AfterAction, Run, Absorb, Spawn, Worked;
    var s := m.sessions[id];
    var start := ExecuteStep(sem, m, id, steps, msg);
    n, m' := 0, m;
    if |steps| <= s.current || Spawn(sem, s.wf, s.ctx, steps[s.current], msg).None? {
      NoStep(sem, driver, start);
      Unchanged(m, id);
    } else {
      var q := Spawn(sem, s.wf, s.ctx, steps[s.current], msg).value;
      var p := q.(ctx := q.ctx["step_number" := Num(s.current)]);
      n := SessionRuns(sem, driver, fuel, m, Some(id), p, msg);
      ChildIsBusy(sem, m, id, p, msg);
      var r := Evaluator.Session(sem, driver, fuel, Room(m), p, msg, m.commands);
      if r.Some? {
        var back := Run(sem, driver, start, n);
        var k;
        k, m' := StepReplied(sem, driver, fuel, m, back, id, steps, r.value);
        n := Then(sem, driver, start, n, back, k);
      }
    }
  }

  lemma Unchanged(m: State, id: nat)
    requires m.Wf() && id in m.sessions
    ensures forall msg, exit :: Worked(m, m, id, Flow(m.sessions[id].Data(), msg, exit, m.commands))
  {
    assert m.sessions == m.sessions[id := m.sessions[id]];
  }

  /** What is left of the steps once one of them has replied. */
  function StepsAfter(sem: Semantics, driver: Driver, fuel: nat, room: nat, wf: Definition,
                      steps: seq<Definition>, j: nat, flow: Flow): Option<Flow> {
    if flow.exit || |steps| <= j + 1 then Some(flow)
    else if fuel == 0 then None
    else StepsFrom(sem, driver, fuel - 1, room, wf, steps, j + 1, flow.frame, flow.msg, flow.log)
  }

  lemma {:induction false} StepReplied(sem: Semantics, driver: Driver, fuel: nat, m: State, back: State, id: nat,
                                       steps: seq<Definition>, reply: Reply)
    returns (n: nat, m': State)
    requires m.Wf() && id in m.sessions && !m.sessions[id].inElse
    requires m.sessions[id].wf.action == Steps(steps) && m.sessions[id].current < |steps|
    requires Delivered(m, back, Some(id), reply)
    ensures var s := m.sessions[id];
            var r := StepsAfter(sem, driver, fuel, Room(m), s.wf, steps, s.current, Resume(sem, s.wf, s.Data(), reply));
            if r.None? then fuel <= n && Busy(sem, driver, back, n)
            else Acted(sem, driver, m, back, n, m', id, r.value)
    decreases fuel, 0
  {
    hide ExecuteStep, Complete, StepsFrom, AfterAction, Run, Absorb;
    var s := m.sessions[id];
    var flow := Resume(sem, s.wf, s.Data(), reply);
    n, m' := 0, m;
    if flow.exit || |steps| <= s.current + 1 {
      n, m' := ReplyRuns(sem, driver, m, back, id, reply.msg, reply.exports);
    } else if fuel == 0 {
      NoStep(sem, driver, back);
    } else {
      var s1 := s.WithData(flow.frame).(current := s.current + 1);
      var m1 := back.Update(id, s1);
      assert m1.sessions.Keys == m.sessions.Keys;
      NextStep(sem, driver, back, id, reply.msg, reply.exports);
      n, m' := StepsRun(sem, driver, fuel - 1, m1, id, steps, reply.msg);
      n := Then(sem, driver, back, 1, ExecuteStep(sem, m1, id, steps, reply.msg), n);
    }
  }

  // ------------------------------------------------------------------
  // The main results, for a root workflow started in any store
  // ------------------------------------------------------------------

  ghost function Meaning(sem: Semantics, driver: Driver, fuel: nat, m: State, p: Prepared, msg: Message): Option<Reply>
    requires m.Wf()
  {
    Evaluator.Session(sem, driver, fuel, Room(m), p, msg, m.commands)
  }

  lemma IdleStays(sem: Semantics, driver: Driver, m: State, a: nat, b: nat)
    requires a <= b && Run(sem, driver, m, a).focus.Idle?
    ensures Run(sem, driver, m, b) == Run(sem, driver, m, a)
  {
    RunSum(sem, driver, m, a, b - a);
    Stuck(sem, driver, Run(sem, driver, m, a), b - a);
  }

  lemma DeliveredIsIdle(m: State, m': State, r: Reply)
    requires Delivered(m, m', None, r)
    ensures m'.focus.Idle?
  {
  }

  /** On the way to a stop, a session that is to be saved finds a free ID. */
  lemma NotYet(sem: Semantics, driver: Driver, m: State, i: nat, n: nat)
    requires i <= n && Run(sem, driver, m, n).focus.Idle? && !Run(sem, driver, m, i).focus.Idle?
    ensures i < n && Run(sem, driver, m, i + 1) == Step(sem, driver, Run(sem, driver, m, i))
    ensures var at := Run(sem, driver, m, i);
            && (at.focus.Launch? || at.focus.LaunchElse? ==> IdMap.HasFree(at.sessions.Keys, IdMap.MAX_ID))
            && (at.focus.LaunchElse? ==> at.focus.s.wf.otherwise.Some?)
  {
    hide LaunchSession, LaunchElseBranch, ContinueExec, IdMap.HasFree;
    var at := Run(sem, driver, m, i);
    RunSum(sem, driver, m, i, n - i);
    RunSum(sem, driver, m, i, 1);
    assert Run(sem, driver, at, 1) == Step(sem, driver, at) by {
      assert Run(sem, driver, Step(sem, driver, at), 0) == Step(sem, driver, at);
    }
    if Step(sem, driver, at) == at {
      Stuck(sem, driver, at, n - i);
    }
  }

  /** Whatever the evaluator prescribes, the machine does, and then it stops. */
  lemma MachineReaches(sem: Semantics, driver: Driver, fuel: nat, m: State, p: Prepared, msg: Message)
    requires m.Wf() && Meaning(sem, driver, fuel, m, p, msg).Some?
    ensures exists n :: Delivered(m, Run(sem, driver, Start(sem, m, p, msg), n), None,
                                  Meaning(sem, driver, fuel, m, p, msg).value)
  {
    var n := SessionRuns(sem, driver, fuel, m, None, p, msg);
    assert Delivered(m, Run(sem, driver, Start(sem, m, p, msg), n), None,
                     Meaning(sem, driver, fuel, m, p, msg).value);
  }

  /** Wherever the machine stops, the evaluator has an answer and the machine agrees with it. */
  lemma MachineAgrees(sem: Semantics, driver: Driver, n: nat, m: State, p: Prepared, msg: Message)
    requires m.Wf() && Run(sem, driver, Start(sem, m, p, msg), n).focus.Idle?
    ensures var r := Meaning(sem, driver, n + 1, m, p, msg);
            r.Some? && Delivered(m, Run(sem, driver, Start(sem, m, p, msg), n), None, r.value)
  {
    var start := Start(sem, m, p, msg);
    var k := SessionRuns(sem, driver, n + 1, m, None, p, msg);
    if n <= k {
      IdleStays(sem, driver, start, n, k);
    } else {
      IdleStays(sem, driver, start, k, n);
    }
  }

  /** The machine stops exactly when the evaluator has an answer. */
  lemma StopsIffDefined(sem: Semantics, driver: Driver, m: State, p: Prepared, msg: Message)
    requires m.Wf()
    ensures (exists n :: Run(sem, driver, Start(sem, m, p, msg), n).focus.Idle?)
            <==> (exists fuel :: Meaning(sem, driver, fuel, m, p, msg).Some?)
  {
    var start := Start(sem, m, p, msg);
    if n :| Run(sem, driver, start, n).focus.Idle? {
      MachineAgrees(sem, driver, n, m, p, msg);
    }
    if fuel :| Meaning(sem, driver, fuel, m, p, msg).Some? {
      MachineReaches(sem, driver, fuel, m, p, msg);
    }
  }

  /** Fuel and the sessions of others decide whether there is an answer, never which one. */
  lemma OneMeaning(sem: Semantics, driver: Driver, f: nat, g: nat, m: State, k: State, p: Prepared, msg: Message)
    requires m.Wf() && k.Wf() && m.commands == k.commands
    requires Meaning(sem, driver, f, m, p, msg).Some? && Meaning(sem, driver, g, k, p, msg).Some?
    ensures Meaning(sem, driver, f, m, p, msg) == Meaning(sem, driver, g, k, p, msg)
  {
    hide Evaluator.Session, Room;
    var h, room := if f <= g then g else f, if Room(m) <= Room(k) then Room(k) else Room(m);
    EvaluatorFuel.SessionKeeps(sem, driver, f, h, Room(m), room, p, msg, m.commands);
    EvaluatorFuel.SessionKeeps(sem, driver, g, h, Room(k), room, p, msg, m.commands);
  }
}
