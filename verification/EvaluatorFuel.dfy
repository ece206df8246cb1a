/**
 The evaluator's answers do not depend on the bounds it is given: with more fuel and more room
 for sessions every answer stays the same.
 */
module EvaluatorFuel {
  import opened Values
  import opened Workflow
  import opened Evaluator

  /** An answer that there is stays the same. */
  predicate Keeps<T(==)>(before: Option<T>, after: Option<T>) {
    before.Some? ==> after == before
  }

  lemma {:induction false} SessionKeeps(sem: Semantics, driver: Driver, f: nat, g: nat, a: nat, b: nat,
                                        p: Prepared, msg: Message, log: seq<Command>)
    requires f <= g && a <= b
    ensures Keeps(Session(sem, driver, f, a, p, msg, log), Session(sem, driver, g, b, p, msg, log))
    decreases f, 0
  {
    hide Rounds, Else;
    if f > 0 && a > 0 {
      RoundsKeep(sem, driver, f - 1, g - 1, a - 1, b - 1, p.wf, 0, Frame(p.ctx, [], None), msg, log);
      if p.wf.otherwise.Some? {
        ElseKeeps(sem, driver, f, g, a, b, p, p.wf.otherwise.value, msg, log);
      }
    }
  }

  lemma {:induction false} ElseKeeps(sem: Semantics, driver: Driver, f: nat, g: nat, a: nat, b: nat,
                                     p: Prepared, branch: Definition, msg: Message, log: seq<Command>)
    requires 0 < f <= g && 0 < a <= b
    ensures Keeps(Else(sem, driver, f, a, p, branch, msg, log), Else(sem, driver, g, b, p, branch, msg, log))
    decreases f - 1, 1
  {
    hide Session;
    var c := Spawn(sem, p.wf, p.ctx, branch, msg);
    if c.Some? {
      SessionKeeps(sem, driver, f - 1, g - 1, a - 1, b - 1, c.value, msg, log);
    }
  }

  lemma {:induction false} RoundsKeep(sem: Semantics, driver: Driver, f: nat, g: nat, a: nat, b: nat,
                                      wf: Definition, round: nat, fr: Frame, msg: Message, log: seq<Command>)
    requires f <= g && a <= b
    ensures Keeps(Rounds(sem, driver, f, a, wf, round, fr, msg, log),
                  Rounds(sem, driver, g, b, wf, round, fr, msg, log))
    decreases f, 4
  {
    hide Items;
    var fr1 := fr.(ctx := BindLoop(wf, fr.ctx, round));
    ItemsKeep(sem, driver, f, g, a, b, wf, 0, fr1, msg, log);
    var r := Items(sem, driver, f, a, wf, 0, fr1, msg, log);
    if r.Some? && f > 0 {
      RoundsKeep(sem, driver, f - 1, g - 1, a, b, wf, round + 1, r.value.frame, r.value.msg, r.value.log);
    }
  }

  lemma {:induction false} ItemsKeep(sem: Semantics, driver: Driver, f: nat, g: nat, a: nat, b: nat,
                                     wf: Definition, i: nat, fr: Frame, msg: Message, log: seq<Command>)
    requires f <= g && a <= b
    ensures Keeps(Items(sem, driver, f, a, wf, i, fr, msg, log), Items(sem, driver, g, b, wf, i, fr, msg, log))
    decreases f, 3
  {
    hide Act;
    ActKeeps(sem, driver, f, g, a, b, wf, fr, msg, log);
    if wf.iterate.Some? && i < |wf.iterate.value| {
      var fr1 := fr.(ctx := BindItem(wf, fr.ctx, wf.iterate.value[i]));
      ActKeeps(sem, driver, f, g, a, b, wf, fr1, msg, log);
      var r := Act(sem, driver, f, a, wf, fr1, msg, log);
      if r.Some? && f > 0 {
        ItemsKeep(sem, driver, f - 1, g - 1, a, b, wf, i + 1, r.value.frame, r.value.msg, r.value.log);
      }
    }
  }

  lemma {:induction false} ActKeeps(sem: Semantics, driver: Driver, f: nat, g: nat, a: nat, b: nat,
                                    wf: Definition, fr: Frame, msg: Message, log: seq<Command>)
    requires f <= g && a <= b
    ensures Keeps(Act(sem, driver, f, a, wf, fr, msg, log), Act(sem, driver, g, b, wf, fr, msg, log))
    decreases f, 2
  {
    hide Child, StepsFrom;
    match wf.action
    case Call =>
      var name := sem.callee(wf, fr.ctx, msg);
      if name in sem.workflows {
        var fr1 := fr.(ctx := BindCallee(wf, fr.ctx, name));
        ChildKeeps(sem, driver, f, g, a, b, wf, fr1, Named(sem.workflows[name], name), msg, log);
      }
    case Steps(steps) => StepsKeep(sem, driver, f, g, a, b, wf, steps, 0, fr, msg, log);
    case Switch(cases, fallback) =>
      var key := sem.switchKey(wf, fr.ctx, msg);
      if key in cases {
        ChildKeeps(sem, driver, f, g, a, b, wf, fr, cases[key], msg, log);
      } else if fallback.Some? {
        ChildKeeps(sem, driver, f, g, a, b, wf, fr, fallback.value, msg, log);
      }
    case Invoke =>
    case Nothing =>
  }

  lemma {:induction false} ChildKeeps(sem: Semantics, driver: Driver, f: nat, g: nat, a: nat, b: nat,
                                      wf: Definition, fr: Frame, child: Definition, msg: Message, log: seq<Command>)
    requires f <= g && a <= b
    ensures Keeps(Child(sem, driver, f, a, wf, fr, child, msg, log), Child(sem, driver, g, b, wf, fr, child, msg, log))
    decreases f, 1
  {
    hide Session;
    var p := Spawn(sem, wf, fr.ctx, child, msg);
    if p.Some? {
      SessionKeeps(sem, driver, f, g, a, b, p.value, msg, log);
    }
  }

  lemma {:induction false} StepsKeep(sem: Semantics, driver: Driver, f: nat, g: nat, a: nat, b: nat,
                                     wf: Definition, steps: seq<Definition>, j: nat,
                                     fr: Frame, msg: Message, log: seq<Command>)
    requires f <= g && a <= b
    ensures Keeps(StepsFrom(sem, driver, f, a, wf, steps, j, fr, msg, log),
                  StepsFrom(sem, driver, g, b, wf, steps, j, fr, msg, log))
    decreases f, 1
  {
    hide Session;
    if j < |steps| {
      var q := Spawn(sem, wf, fr.ctx, steps[j], msg);
      if q.Some? {
        var p := q.value.(ctx := q.value.ctx["step_number" := Num(j)]);
        SessionKeeps(sem, driver, f, g, a, b, p, msg, log);
        var r := Session(sem, driver, f, a, p, msg, log);
        if r.Some? && f > 0 {
          var flow := Resume(sem, wf, fr, r.value);
          StepsKeep(sem, driver, f - 1, g - 1, a, b, wf, steps, j + 1, flow.frame, flow.msg, flow.log);
        }
      }
    }
  }
}
