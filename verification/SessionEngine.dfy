/**
 The engine as the program writes it: an object that owns the session table and updates it in
 place. Every method is tied to the machine of module `Machine`.
 */
module SessionEngine {
  import opened Values
  import opened Workflow
  import opened Evaluator
  import M = Machine
  import Refinement
  import IdMap

  /** Where a session goes after a reply. */
  datatype Route = ToComplete | ToStep | ToIteration | ToRound

  class Engine {
    const sem: Semantics
    const driver: Driver
    const table: IdMap.Table<M.Session>
    var commands: seq<Command>
    var focus: M.Focus
    var final: Option<M.Final>

    ghost predicate Valid()
      reads this, table
    {
      table.maxId == IdMap.MAX_ID && table.Valid()
    }

    ghost function View(): M.State
      reads this, table
    {
      M.State(table.entries, table.counter, commands, focus, final)
    }

    constructor (sem: Semantics, driver: Driver)
      ensures Valid() && fresh(table)
      ensures this.sem == sem && this.driver == driver
      ensures View() == M.State(map[], 0, [], M.Idle, None)
    {
      this.sem, this.driver := sem, driver;
      table := new IdMap.Table(IdMap.MAX_ID);
      commands, focus, final := [], M.Idle, None;
    }

    method StartSession(p: Prepared, msg: Message)
      requires Valid()
      modifies this
      ensures Valid() && View() == M.Start(sem, old(View()), p, msg)
    {
      Execute(M.NewSession(None, p), msg);
    }

    method Complete(id: nat, msg: Message)
      requires Valid() && id in table.entries
      modifies this, table
      ensures Valid() && View() == M.Complete(sem, old(View()), id, msg)
    {
      var s := table.entries[id];
      var m, exported, ctx := msg, s.exported, s.ctx;
      if !s.inElse {
        var e := sem.export_(s.wf, s.inFly, s.ctx, msg);
        m, exported, ctx := e.msg, exported + e.deltas, e.ctx;
      } else {
        assert exported == exported + [];
      }
      table.Del(id);
      if s.parent.Some? {
        focus := M.Continue(s.parent.value, m, exported);
      } else {
        focus, final := M.Idle, Some(M.Final(m, ctx));
      }
    }

    method Execute(s: M.Session, msg: Message)
      requires Valid()
      modifies this
      ensures Valid() && View() == M.Execute(sem, old(View()), s, msg)
    {
      if sem.condition(s.wf, s.ctx) && sem.loopCondition(s.wf, s.ctx, msg) {
        if s.wf.iterate.None? || |s.wf.iterate.value| > 0 {
          focus := M.Launch(s, msg);
        } else {
          Noop(s, msg);
        }
      } else if s.wf.otherwise.Some? {
        focus := M.LaunchElse(s.(inElse := true), msg);
      } else {
        Noop(s, msg);
      }
    }

    method Noop(s: M.Session, msg: Message)
      requires Valid()
      modifies this
      ensures Valid() && View() == M.Noop(old(View()), s, msg)
    {
      var m := msg;
      if m.Status() != SUCCESS {
        m := SuccessMessage();
      }
      if s.parent.Some? {
        focus := M.Continue(s.parent.value, m, []);
      } else {
        focus := M.Idle;
      }
    }

    method ExecuteChild(id: nat, wf: Definition, msg: Message)
      requires Valid() && id in table.entries
      modifies this, table
      ensures Valid() && View() == M.ExecuteChild(sem, old(View()), id, wf, msg)
    {
      var s := table.entries[id];
      match Spawn(sem, s.wf, s.ctx, wf, msg)
      case None => Complete(id, ErrorMessage("prepare"));
      case Some(p) => Execute(M.NewSession(Some(id), p), msg);
    }

    method ExecuteStep(id: nat, steps: seq<Definition>, msg: Message)
      requires Valid() && id in table.entries
      modifies this, table
      ensures Valid() && View() == M.ExecuteStep(sem, old(View()), id, steps, msg)
    {
      var s := table.entries[id];
      if |steps| <= s.current {
        Complete(id, ErrorMessage("index"));
      } else {
        match Spawn(sem, s.wf, s.ctx, steps[s.current], msg)
        case None => Complete(id, ErrorMessage("prepare"));
        case Some(p) =>
          var child := M.NewSession(Some(id), p);
          child := child.(ctx := child.ctx["step_number" := Num(s.current)]);
          Execute(child, msg);
      }
    }

    method ExecuteSwitch(id: nat, msg: Message)
      requires Valid() && id in table.entries && table.entries[id].wf.action.Switch?
      modifies this, table
      ensures Valid() && View() == M.ExecuteSwitch(sem, old(View()), id, msg)
    {
      var s := table.entries[id];
      var key := sem.switchKey(s.wf, s.ctx, msg);
      if key in s.wf.action.cases {
        ExecuteChild(id, s.wf.action.cases[key], msg);
      } else if s.wf.action.fallback.Some? {
        ExecuteChild(id, s.wf.action.fallback.value, msg);
      } else {
        focus := M.Continue(id, SuccessOf(msg), []);
      }
    }

    method ExecuteAction(id: nat, msg: Message)
      requires Valid() && id in table.entries
      modifies this, table
      ensures Valid() && View() == M.ExecuteAction(sem, old(View()), id, msg)
    {
      hide M.ExecuteChild, M.ExecuteStep, M.ExecuteSwitch, M.Complete;
      var s := table.entries[id];
      match s.wf.action
      case Call =>
        var name := sem.callee(s.wf, s.ctx, msg);
        var ctx := s.ctx;
        if s.wf.name == "" {
          ctx := ctx["_meta_name" := Str("calling " + name)];
        }
        Store(id, s.(ctx := ctx));
        if name in sem.workflows {
          var callee := sem.workflows[name];
          if callee.name == "" {
            callee := callee.(name := name);
          }
          ExecuteChild(id, callee, msg);
        } else {
          Complete(id, ErrorMessage("not defined"));
        }
      case Invoke =>
        match sem.function_(s.wf, s.ctx, msg) {
          case None => Complete(id, ErrorMessage("function"));
          case Some(f) =>
            Store(id, s.(inFly := Some(f)));
            commands := commands + [Command(f, s.ctx, msg)];
            focus := M.Await(id);
        }
      case Steps(steps) =>
        Store(id, s.(current := 0));
        ExecuteStep(id, steps, msg);
      case Switch(_, _) => ExecuteSwitch(id, msg);
      case Nothing => focus := M.Continue(id, SuccessMessage(), []);
    }

    /** Writes a session's fields back. */
    method Store(id: nat, s: M.Session)
      requires Valid() && id in table.entries
      modifies table
      ensures Valid() && View() == old(View()).Update(id, s)
    {
      table.entries := table.entries[id := s];
    }

    method ExecuteIteration(id: nat, msg: Message)
      requires Valid() && id in table.entries
      modifies this, table
      ensures Valid() && View() == M.ExecuteIteration(sem, old(View()), id, msg)
    {
      hide M.ExecuteAction, M.Complete;
      var s := table.entries[id];
      if s.wf.iterate.None? {
        ExecuteAction(id, msg);
      } else if |s.wf.iterate.value| <= s.iteration {
        Complete(id, ErrorMessage("index"));
      } else {
        var item := s.wf.iterate.value[s.iteration];
        var ctx := s.ctx["current" := item];
        if s.wf.iterateAs != "" {
          ctx := ctx[s.wf.iterateAs := item];
        }
        Store(id, s.(current := 0, ctx := ctx));
        ExecuteAction(id, msg);
      }
    }

    method ExecuteRound(id: nat, msg: Message)
      requires Valid() && id in table.entries
      modifies this, table
      ensures Valid() && View() == M.ExecuteRound(sem, old(View()), id, msg)
    {
      hide M.ExecuteIteration;
      var s := table.entries[id];
      if s.wf.isLoop {
        Store(id, s.(ctx := s.ctx["loop_count" := Num(s.loopCount)], iteration := 0, current := 0));
      }
      ExecuteIteration(id, msg);
    }

    /** Merges a child's exports into the session. */
    method MergeContext(id: nat, exports: seq<Ctx>)
      requires Valid() && id in table.entries
      modifies table
      ensures Valid()
      ensures var s := old(table.entries)[id];
              View() == old(View()).Update(id, s.WithData(Absorb(sem, s.wf, s.Data(), exports)))
    {
      var s := table.entries[id];
      var ctx, exported := s.ctx, s.exported;
      var i := 0;
      while i < |exports|
        invariant 0 <= i <= |exports|
        invariant Valid() && View() == old(View())
        invariant Absorb(sem, s.wf, Frame(ctx, exported, s.inFly), exports[i..])
                  == Absorb(sem, s.wf, s.Data(), exports)
      {
        assert exports[i..][1..] == exports[i + 1..];
        ctx := sem.merge(ctx, exports[i]);
        var kept := ProcessNoExport(s.wf.noExport, exports[i]);
        if kept != map[] {
          exported := exported + [kept];
        }
        i := i + 1;
      }
      Store(id, s.(ctx := ctx, exported := exported));
    }

    method ProcessNoExport(noExport: seq<string>, delta: Ctx) returns (kept: Ctx)
      ensures kept == Keep(noExport, delta)
    {
      kept := delta;
      var i := 0;
      while i < |noExport|
        invariant 0 <= i <= |noExport|
        invariant Keep(noExport[i..], kept) == Keep(noExport, delta)
      {
        assert noExport[i..][1..] == noExport[i + 1..];
        if noExport[i] == "*" {
          return map[];
        }
        kept := kept - {noExport[i], noExport[i] + "-", noExport[i] + "+"};
        i := i + 1;
      }
    }

    method RouteNext(id: nat, msg: Message) returns (route: Route)
      requires id in table.entries
      ensures var s := table.entries[id];
              var stops := (msg.Status() == "error" && s.wf.onError != "continue")
                           || (msg.Status() == "failure" && s.wf.onFailure == "exit");
              var goesOn := !stops && !s.inElse;
              var moreSteps := s.wf.action.Steps? && s.current + 1 < |s.wf.action.steps|;
              var moreItems := s.wf.iterate.Some? && s.iteration + 1 < |s.wf.iterate.value|;
              && (route.ToStep? <==> goesOn && moreSteps)
              && (route.ToIteration? <==> goesOn && !moreSteps && moreItems)
              && (route.ToRound? <==> goesOn && !moreSteps && !moreItems
                                      && s.wf.isLoop && sem.loopCondition(s.wf, s.ctx, msg))
    {
      var s := table.entries[id];
      if msg.Status() == ERROR && s.wf.onError != "continue" {
        return ToComplete;
      }
      if msg.Status() == FAILURE && s.wf.onFailure == "exit" {
        return ToComplete;
      }
      if s.inElse {
        return ToComplete;
      }
      if s.wf.action.Steps? && s.current < |s.wf.action.steps| - 1 {
        return ToStep;
      }
      if s.wf.iterate.Some? && s.iteration < |s.wf.iterate.value| - 1 {
        return ToIteration;
      }
      if s.wf.isLoop && sem.loopCondition(s.wf, s.ctx, msg) {
        return ToRound;
      }
      return ToComplete;
    }

    method ContinueExec(id: nat, msg: Message, exports: seq<Ctx>)
      requires Valid() && id in table.entries
      modifies this, table
      ensures Valid() && View() == M.ContinueExec(sem, old(View()), id, msg, exports)
    {
      hide M.ExecuteStep, M.ExecuteIteration, M.ExecuteRound, M.Complete, Absorb;
      MergeContext(id, exports);
      var route := RouteNext(id, msg);
      var s := table.entries[id];
      match route
      case ToStep =>
        Store(id, s.(current := s.current + 1));
        assert View() == old(View()).Update(id, s.(current := s.current + 1));
        ExecuteStep(id, s.wf.action.steps, msg);
      case ToIteration =>
        Store(id, s.(iteration := s.iteration + 1));
        ExecuteIteration(id, msg);
      case ToRound =>
        Store(id, s.(loopCount := s.loopCount + 1));
        ExecuteRound(id, msg);
      case ToComplete =>
        Complete(id, msg);
    }

    /** A reply addressed to a session that is not in the table changes no session. */
    method ContinueSession(id: nat, msg: Message, exports: seq<Ctx>)
      requires Valid()
      modifies this, table
      ensures Valid()
      ensures id in old(table.entries) ==> View() == M.ContinueExec(sem, old(View()), id, msg, exports)
      ensures id !in old(table.entries) ==> View() == old(View()).(focus := M.Idle)
    {
      if id in table.entries {
        ContinueExec(id, msg, exports);
      } else {
        focus := M.Idle;
      }
    }

    /**
     A root workflow from its start until nothing is left to do. Whenever the evaluator has an
     answer, the engine stops; it has issued the same commands, ended with the same message and
     context, and left the table as it found it.
     */
    method RunSession(p: Prepared, msg: Message, ghost fuel: nat)
      requires Valid() && Refinement.Meaning(sem, driver, fuel, View(), p, msg).Some?
      modifies this, table
      ensures Valid()
      ensures Refinement.Delivered(old(View()), View(), None,
                                   Refinement.Meaning(sem, driver, fuel, old(View()), p, msg).value)
    {
      hide M.Start, M.Step, Refinement.Meaning, Refinement.Delivered;
      Refinement.MachineReaches(sem, driver, fuel, View(), p, msg);
      ghost var m0, start := View(), M.Start(sem, View(), p, msg);
      ghost var reply := Refinement.Meaning(sem, driver, fuel, m0, p, msg).value;
      ghost var n: nat :| Refinement.Delivered(m0, M.Run(sem, driver, start, n), None, reply);
      Refinement.DeliveredIsIdle(m0, M.Run(sem, driver, start, n), reply);
      StartSession(p, msg);
      ghost var i := 0;
      while !focus.Idle?
        invariant Valid() && 0 <= i <= n && View() == M.Run(sem, driver, start, i)
        decreases n - i
      {
        Refinement.NotYet(sem, driver, start, i, n);
        Step();
        i := i + 1;
      }
      Refinement.IdleStays(sem, driver, start, i, n);
    }

    /** The goroutine in hand runs, or the command that is out is answered. */
    method Step()
      requires Valid()
      requires focus.Launch? || focus.LaunchElse? ==> IdMap.HasFree(table.entries.Keys, IdMap.MAX_ID)
      requires focus.LaunchElse? ==> focus.s.wf.otherwise.Some?
      modifies this, table
      ensures Valid() && View() == M.Step(sem, driver, old(View()))
    {
      hide M.ExecuteRound, M.ExecuteChild, M.ContinueExec;
      match focus
      case Launch(s, msg) =>
        var id := table.Put(s);
        ExecuteRound(id, msg);
      case LaunchElse(s, msg) =>
        var id := table.Put(s);
        ExecuteChild(id, s.wf.otherwise.value, msg);
      case Continue(id, msg, exports) =>
        ContinueSession(id, msg, exports);
      case Await(id) =>
        focus := M.Continue(id, driver(commands), []);
      case Idle =>
    }
  }
}
