/**
 What a workflow sends to drivers, said turn by turn: which commands, in which order, with what in
 their contexts, and when it stops. Here the parts of a workflow are plain commands, so that the
 turns can be listed; the evaluator, and with it the engine, goes through exactly these.
 */
module WorkflowTraces {
  import opened Values
  import opened Workflow
  import opened Evaluator
  import Machine
  import Refinement

  /** A status that ends a session early. */
  predicate EndsOn(wf: Definition, status: string) {
    || (status == "error" && wf.onError != "continue")
    || (status == "failure" && wf.onFailure == "exit")
  }

  /** A definition that sends one command and nothing else. */
  ghost predicate IsCommand(sem: Semantics, wf: Definition, what: Value) {
    && wf.action.Invoke? && wf.iterate.None? && !wf.isLoop
    && (forall ctx :: sem.condition(wf, ctx))
    && (forall ctx, msg :: sem.loopCondition(wf, ctx, msg))
    && (forall ctx, msg :: sem.function_(wf, ctx, msg) == Some(what))
  }

  /** However it is prepared as a child of `parent`, the definition is a command. */
  ghost predicate SendsOne(sem: Semantics, parent: Definition, d: Definition, what: Value) {
    forall ctx, msg ::
      sem.prepare(d, ctx, msg).Some? && IsCommand(sem, Inherit(sem.prepare(d, ctx, msg).value.wf, parent), what)
  }

  /** A child's turn: the context and message it starts from, its command, and what it exports. */
  datatype Turn = Turn(ctx: Ctx, msg: Message, command: Command, out: Exported)

  /** The child is prepared without its parent's hooks, and numbered if it is a step. */
  ghost predicate IsTurn(sem: Semantics, driver: Driver, parent: Definition, d: Definition, what: Value,
                         number: Option<int>, log: seq<Command>, t: Turn) {
    var p := sem.prepare(d, t.ctx - {"hooks"}, t.msg);
    && p.Some?
    && t.command.what == what && t.command.msg == t.msg
    && t.command.ctx == (if number.Some? then p.value.ctx["step_number" := Num(number.value)] else p.value.ctx)
    && t.out == sem.export_(Inherit(p.value.wf, parent), Some(what), t.command.ctx, driver(log + [t.command]))
  }

  function Commands(turns: seq<Turn>): (r: seq<Command>)
    ensures |r| == |turns| && forall k :: 0 <= k < |r| ==> r[k] == turns[k].command
  {
    seq(|turns|, k requires 0 <= k < |turns| => turns[k].command)
  }

  // ------------------------------------------------------------------
  // One command
  // ------------------------------------------------------------------

  lemma CommandRuns(sem: Semantics, driver: Driver, fuel: nat, room: nat, p: Prepared, what: Value,
                    msg: Message, log: seq<Command>)
    requires IsCommand(sem, p.wf, what) && 0 < fuel && 0 < room
    ensures var log1 := log + [Command(what, p.ctx, msg)];
            var e := sem.export_(p.wf, Some(what), p.ctx, driver(log1));
            Session(sem, driver, fuel, room, p, msg, log) == Some(Reply(true, e.msg, e.deltas, e.ctx, log1))
  {
    var fr := Frame(p.ctx, [], None);
    assert Act(sem, driver, fuel - 1, room - 1, p.wf, fr, msg, log).Some?;
    assert Items(sem, driver, fuel - 1, room - 1, p.wf, 0, fr, msg, log)
           == Act(sem, driver, fuel - 1, room - 1, p.wf, fr, msg, log);
    assert fr.(ctx := BindLoop(p.wf, p.ctx, 0)) == fr;
    assert Rounds(sem, driver, fuel - 1, room - 1, p.wf, 0, fr, msg, log)
           == Act(sem, driver, fuel - 1, room - 1, p.wf, fr, msg, log);
    var e := sem.export_(p.wf, Some(what), p.ctx, driver(log + [Command(what, p.ctx, msg)]));
    assert [] + e.deltas == e.deltas;
  }

  /** A child that is a command has its turn, and the parent goes on or exits. */
  ghost predicate TakesTurn(sem: Semantics, wf: Definition, exported: seq<Ctx>, log: seq<Command>, t: Turn,
                            flow: Flow) {
    && flow.frame.exported == exported + PassedOn(wf, t.out.deltas)
    && flow.log == log + [t.command]
    && flow.msg == t.out.msg
    && flow.frame.ctx == MergeAll(sem, t.ctx, t.out.deltas)
    && (flow.exit <==> EndsOn(wf, t.out.msg.Status()))
  }

  lemma ChildTakesTurn(sem: Semantics, driver: Driver, fuel: nat, room: nat, wf: Definition, fr: Frame,
                       d: Definition, what: Value, msg: Message, log: seq<Command>) returns (t: Turn)
    requires SendsOne(sem, wf, d, what) && 0 < fuel && 0 < room
    ensures t.ctx == fr.ctx && t.msg == msg && IsTurn(sem, driver, wf, d, what, None, log, t)
    ensures var flow := Child(sem, driver, fuel, room, wf, fr, d, msg, log);
            flow.Some? && TakesTurn(sem, wf, fr.exported, log, t, flow.value)
  {
    hide Session, Absorb, MergeAll, PassedOn;
    var p := Spawn(sem, wf, fr.ctx, d, msg).value;
    CommandRuns(sem, driver, fuel, room, p, what, msg, log);
    var c := Command(what, p.ctx, msg);
    t := Turn(fr.ctx, msg, c, sem.export_(p.wf, Some(what), p.ctx, driver(log + [c])));
    AbsorbIsMerge(sem, wf, fr, t.out.deltas);
  }

  // ------------------------------------------------------------------
  // Steps
  // ------------------------------------------------------------------

  /** Each step starts from what the one before it left. */
  ghost predicate IsTrace(sem: Semantics, driver: Driver, wf: Definition, steps: seq<Definition>, whats: seq<Value>,
                          j: nat, ctx: Ctx, msg: Message, log: seq<Command>, turns: seq<Turn>) {
    && 0 < |turns| && j + |turns| <= |steps| == |whats|
    && turns[0].ctx == ctx && turns[0].msg == msg
    && (forall k :: 0 <= k < |turns| ==>
          IsTurn(sem, driver, wf, steps[j + k], whats[j + k], Some(j + k), log + Commands(turns[..k]), turns[k]))
    && (forall k :: 0 <= k < |turns| - 1 ==>
          && turns[k + 1].msg == turns[k].out.msg
          && turns[k + 1].ctx == MergeAll(sem, turns[k].ctx, turns[k].out.deltas))
  }

  /** The turns go on to the first status that ends the session, or else to the last step. */
  ghost predicate StopsRight(wf: Definition, left: nat, turns: seq<Turn>) {
    && 0 < |turns| <= left
    && (forall k :: 0 <= k < |turns| - 1 ==> !EndsOn(wf, turns[k].out.msg.Status()))
    && (|turns| < left ==> EndsOn(wf, turns[|turns| - 1].out.msg.Status()))
  }

  ghost predicate AllSendOne(sem: Semantics, wf: Definition, steps: seq<Definition>, whats: seq<Value>) {
    |steps| == |whats| && forall k :: 0 <= k < |steps| ==> SendsOne(sem, wf, steps[k], whats[k])
  }

  /** One step, as a child with its number. */
  lemma StepTakesTurn(sem: Semantics, driver: Driver, fuel: nat, room: nat, wf: Definition, fr: Frame,
                      d: Definition, what: Value, j: nat, msg: Message, log: seq<Command>)
    returns (t: Turn, p: Prepared)
    requires SendsOne(sem, wf, d, what) && 0 < fuel && 0 < room
    ensures Spawn(sem, wf, fr.ctx, d, msg) == Some(p)
    ensures t.ctx == fr.ctx && t.msg == msg && IsTurn(sem, driver, wf, d, what, Some(j), log, t)
    ensures var r := Session(sem, driver, fuel, room, p.(ctx := p.ctx["step_number" := Num(j)]), msg, log);
            r.Some? && TakesTurn(sem, wf, fr.exported, log, t, Resume(sem, wf, fr, r.value))
  {
    hide Session, Absorb, MergeAll, PassedOn;
    p := Spawn(sem, wf, fr.ctx, d, msg).value;
    var q := p.(ctx := p.ctx["step_number" := Num(j)]);
    CommandRuns(sem, driver, fuel, room, q, what, msg, log);
    var c := Command(what, q.ctx, msg);
    t := Turn(fr.ctx, msg, c, sem.export_(q.wf, Some(what), q.ctx, driver(log + [c])));
    AbsorbIsMerge(sem, wf, fr, t.out.deltas);
  }

  /** What the steps pass on to the parent's parent. */
  function Passed(wf: Definition, turns: seq<Turn>): seq<Ctx> {
    if turns == [] then [] else PassedOn(wf, turns[0].out.deltas) + Passed(wf, turns[1..])
  }

  lemma PassedMore(exported: seq<Ctx>, wf: Definition, t: Turn, rest: seq<Turn>)
    ensures exported + PassedOn(wf, t.out.deltas) + Passed(wf, rest) == exported + Passed(wf, [t] + rest)
  {
    assert ([t] + rest)[1..] == rest;
  }

  lemma PassedOne(wf: Definition, t: Turn)
    ensures Passed(wf, [t]) == PassedOn(wf, t.out.deltas)
  {
    assert [t][1..] == [] && Passed(wf, []) == [];
  }

  lemma TraceMore(sem: Semantics, driver: Driver, wf: Definition, steps: seq<Definition>, whats: seq<Value>,
                  j: nat, t: Turn, log: seq<Command>, rest: seq<Turn>)
    requires j + 1 < |steps| == |whats|
    requires IsTurn(sem, driver, wf, steps[j], whats[j], Some(j), log, t)
    requires IsTrace(sem, driver, wf, steps, whats, j + 1, MergeAll(sem, t.ctx, t.out.deltas), t.out.msg,
                     log + [t.command], rest)
    ensures IsTrace(sem, driver, wf, steps, whats, j, t.ctx, t.msg, log, [t] + rest)
    ensures log + Commands([t] + rest) == log + [t.command] + Commands(rest)
  {
    hide IsTurn, MergeAll;
    var turns := [t] + rest;
    assert log + Commands(turns[..0]) == log;
    forall k | 0 <= k < |turns|
      ensures IsTurn(sem, driver, wf, steps[j + k], whats[j + k], Some(j + k), log + Commands(turns[..k]), turns[k])
    {
      if k > 0 {
        assert turns[..k] == [t] + rest[..k - 1];
        assert log + Commands(turns[..k]) == log + [t.command] + Commands(rest[..k - 1]);
        assert j + k == j + 1 + (k - 1) && turns[k] == rest[k - 1];
      }
    }
  }

  lemma TraceOne(sem: Semantics, driver: Driver, wf: Definition, steps: seq<Definition>, whats: seq<Value>,
                 j: nat, t: Turn, log: seq<Command>)
    requires j < |steps| == |whats|
    requires IsTurn(sem, driver, wf, steps[j], whats[j], Some(j), log, t)
    ensures IsTrace(sem, driver, wf, steps, whats, j, t.ctx, t.msg, log, [t])
    ensures Commands([t]) == [t.command]
  {
    hide IsTurn;
    assert log + Commands([t][..0]) == log;
  }

  lemma StopsOne(wf: Definition, left: nat, t: Turn)
    requires 0 < left && (1 < left ==> EndsOn(wf, t.out.msg.Status()))
    ensures StopsRight(wf, left, [t])
  {
  }

  lemma StopsMore(wf: Definition, left: nat, t: Turn, rest: seq<Turn>)
    requires 0 < left && !EndsOn(wf, t.out.msg.Status()) && StopsRight(wf, left - 1, rest)
    ensures StopsRight(wf, left, [t] + rest)
    ensures rest != [] && ([t] + rest)[|rest|] == rest[|rest| - 1]
  {
    hide EndsOn;
    var turns := [t] + rest;
    assert forall k :: 0 < k < |turns| ==> turns[k] == rest[k - 1];
  }

  lemma {:induction false} StepsTakeTurns(sem: Semantics, driver: Driver, fuel: nat, room: nat, wf: Definition,
                                          steps: seq<Definition>, whats: seq<Value>, j: nat, fr: Frame,
                                          msg: Message, log: seq<Command>) returns (turns: seq<Turn>)
    requires AllSendOne(sem, wf, steps, whats) && j < |steps| && |steps| - j <= fuel && 0 < room
    ensures IsTrace(sem, driver, wf, steps, whats, j, fr.ctx, msg, log, turns)
    ensures StopsRight(wf, |steps| - j, turns)
    ensures var r := StepsFrom(sem, driver, fuel, room, wf, steps, j, fr, msg, log);
            var last := turns[|turns| - 1];
            && r.Some? && r.value.log == log + Commands(turns) && r.value.msg == last.out.msg
            && r.value.frame.ctx == MergeAll(sem, last.ctx, last.out.deltas)
            && r.value.frame.inFly == fr.inFly
            && r.value.frame.exported == fr.exported + Passed(wf, turns)
    decreases |steps| - j
  {
    hide Session, Absorb, MergeAll, SendsOne, IsTurn, PassedOn, Passed, IsTrace, StopsRight, EndsOn;
    assert SendsOne(sem, wf, steps[j], whats[j]);
    var t, p := StepTakesTurn(sem, driver, fuel, room, wf, fr, steps[j], whats[j], j, msg, log);
    var r := Session(sem, driver, fuel, room, p.(ctx := p.ctx["step_number" := Num(j)]), msg, log).value;
    var flow := Resume(sem, wf, fr, r);
    AbsorbIsMerge(sem, wf, fr, r.exports);
    if !flow.exit && j + 1 < |steps| {
      var rest := StepsTakeTurns(sem, driver, fuel - 1, room, wf, steps, whats, j + 1, flow.frame, flow.msg, flow.log);
      TraceMore(sem, driver, wf, steps, whats, j, t, log, rest);
      turns := [t] + rest;
      PassedMore(fr.exported, wf, t, rest);
      StopsMore(wf, |steps| - j, t, rest);
    } else {
      turns := [t];
      PassedOne(wf, t);
      TraceOne(sem, driver, wf, steps, whats, j, t, log);
      StopsOne(wf, |steps| - j, t);
    }
  }

  /** A root workflow that does nothing but go through some commands. */
  ghost predicate IsList(sem: Semantics, wf: Definition, steps: seq<Definition>, whats: seq<Value>) {
    && wf.action == Steps(steps) && wf.iterate.None? && !wf.isLoop && steps != []
    && (forall ctx :: sem.condition(wf, ctx))
    && (forall ctx, msg :: sem.loopCondition(wf, ctx, msg))
    && AllSendOne(sem, wf, steps, whats)
  }

  lemma ListIsSteps(sem: Semantics, driver: Driver, fuel: nat, room: nat, p: Prepared, steps: seq<Definition>,
                    whats: seq<Value>, msg: Message, log: seq<Command>)
    requires IsList(sem, p.wf, steps, whats) && 0 < fuel && 0 < room
    ensures var flow := StepsFrom(sem, driver, fuel - 1, room - 1, p.wf, steps, 0, Frame(p.ctx, [], None), msg, log);
            flow.Some? ==> Session(sem, driver, fuel, room, p, msg, log) == Some(Finish(sem, p.wf, flow.value))
  {
    hide StepsFrom, AllSendOne, Finish;
    var fr := Frame(p.ctx, [], None);
    assert fr.(ctx := BindLoop(p.wf, p.ctx, 0)) == fr;
    var act := Act(sem, driver, fuel - 1, room - 1, p.wf, fr, msg, log);
    assert Items(sem, driver, fuel - 1, room - 1, p.wf, 0, fr, msg, log) == act;
    assert act.Some? ==> Rounds(sem, driver, fuel - 1, room - 1, p.wf, 0, fr, msg, log) == act;
  }

  /**
   The engine's machine, from any store with room for two sessions: it sends the commands of the
   steps in order, up to the first reply that ends the session, and ends with that reply as the
   workflow exports it. With nothing set that is the first error, and failures do not stop it;
   with `on_error` set to continue and `on_failure` not set to exit nothing does.
   */
  lemma RunSendsSteps(sem: Semantics, driver: Driver, m: Machine.State, p: Prepared, steps: seq<Definition>,
                      whats: seq<Value>, msg: Message) returns (turns: seq<Turn>, n: nat)
    requires m.Wf() && Refinement.Room(m) >= 2 && IsList(sem, p.wf, steps, whats)
    ensures IsTrace(sem, driver, p.wf, steps, whats, 0, p.ctx, msg, m.commands, turns)
    ensures var now := Machine.Run(sem, driver, Machine.Start(sem, m, p, msg), n);
            var last := turns[|turns| - 1];
            var e := sem.export_(p.wf, None, MergeAll(sem, last.ctx, last.out.deltas), last.out.msg);
            && now.focus.Idle? && now.sessions == m.sessions
            && now.commands == m.commands + Commands(turns)
            && now.final == Some(Machine.Final(e.msg, e.ctx))
    ensures p.wf.onError == "" && p.wf.onFailure == "" ==>
              && (forall k :: 0 <= k < |turns| - 1 ==> turns[k].out.msg.Status() != "error")
              && (|turns| < |steps| ==> turns[|turns| - 1].out.msg.Status() == "error")
    ensures p.wf.onError == "continue" && p.wf.onFailure != "exit" ==> |turns| == |steps|
    ensures p.wf.onError == "continue" && p.wf.onFailure == "exit" ==>
              && (forall k :: 0 <= k < |turns| - 1 ==> turns[k].out.msg.Status() != "failure")
              && (|turns| < |steps| ==> turns[|turns| - 1].out.msg.Status() == "failure")
  {
    hide StepsFrom, Session, IsTrace, AllSendOne, MergeAll, Machine.Run, Machine.Start;
    var room, fuel := Refinement.Room(m), |steps| + 1;
    var fr := Frame(p.ctx, [], None);
    turns := StepsTakeTurns(sem, driver, fuel - 1, room - 1, p.wf, steps, whats, 0, fr, msg, m.commands);
    ListIsSteps(sem, driver, fuel, room, p, steps, whats, msg, m.commands);
    Refinement.MachineReaches(sem, driver, fuel, m, p, msg);
    var reply := Refinement.Meaning(sem, driver, fuel, m, p, msg).value;
    n :| Refinement.Delivered(m, Machine.Run(sem, driver, Machine.Start(sem, m, p, msg), n), None, reply);
  }

  // ------------------------------------------------------------------
  // Items and rounds
  // ------------------------------------------------------------------

  /** Some keys are bound and all others are as before. */
  predicate Binds(before: Ctx, after: Ctx, keys: set<string>) {
    && after.Keys == before.Keys + keys
    && forall k :: k in before && k !in keys ==> after[k] == before[k]
  }

  /** The commands of one session that sends several: each is sent with the reply to the one before. */
  ghost predicate IsSeries(driver: Driver, what: Value, msg: Message, log: seq<Command>, cs: seq<Command>) {
    && 0 < |cs|
    && (forall k :: 0 <= k < |cs| ==>
          cs[k].what == what && cs[k].msg == if k == 0 then msg else driver(log + cs[..k]))
  }

  /** A command in front of a series. */
  lemma Prefixes(log: seq<Command>, c: Command, rest: seq<Command>)
    ensures forall k :: 0 < k <= |rest| + 1 ==> log + ([c] + rest)[..k] == log + [c] + rest[..k - 1]
    ensures log + [c] + rest == log + ([c] + rest)
  {
    forall k | 0 < k <= |rest| + 1
      ensures log + ([c] + rest)[..k] == log + [c] + rest[..k - 1]
    {
      assert ([c] + rest)[..k] == [c] + rest[..k - 1];
    }
  }

  lemma SeriesMore(driver: Driver, what: Value, msg: Message, log: seq<Command>, c: Command, rest: seq<Command>)
    requires c.what == what && c.msg == msg
    requires IsSeries(driver, what, driver(log + [c]), log + [c], rest)
    ensures IsSeries(driver, what, msg, log, [c] + rest)
    ensures rest != [] && ([c] + rest)[|rest|] == rest[|rest| - 1]
  {
    var cs := [c] + rest;
    Prefixes(log, c, rest);
    forall k | 0 < k < |cs|
      ensures cs[k].what == what && cs[k].msg == driver(log + cs[..k])
    {
      assert cs[k] == rest[k - 1] && log + cs[..k] == log + [c] + rest[..k - 1];
      if k == 1 {
        assert log + [c] + rest[..0] == log + [c];
      }
    }
  }

  /** Every command but the last was answered with a status that does not end the session. */
  ghost predicate AnsweredOn(driver: Driver, wf: Definition, log: seq<Command>, cs: seq<Command>) {
    forall k :: 0 < k < |cs| ==> !EndsOn(wf, driver(log + cs[..k]).Status())
  }

  lemma AnsweredMore(driver: Driver, wf: Definition, log: seq<Command>, c: Command, rest: seq<Command>)
    requires AnsweredOn(driver, wf, log + [c], rest) && !EndsOn(wf, driver(log + [c]).Status())
    ensures AnsweredOn(driver, wf, log, [c] + rest)
  {
    hide EndsOn;
    var cs := [c] + rest;
    Prefixes(log, c, rest);
    forall k | 0 < k < |cs|
      ensures !EndsOn(wf, driver(log + cs[..k]).Status())
    {
      assert log + cs[..k] == log + [c] + rest[..k - 1];
      if k == 1 {
        assert log + [c] + rest[..0] == log + [c];
      }
    }
  }

  /** The keys under which an item is found. */
  function ItemKeys(wf: Definition): set<string> {
    {"current"} + (if wf.iterateAs == "" then {} else {wf.iterateAs})
  }

  ghost predicate BindsItems(wf: Definition, items: seq<Value>, i: nat, ctx: Ctx, cs: seq<Command>) {
    && i + |cs| <= |items|
    && forall k :: 0 <= k < |cs| ==>
         && Binds(ctx, cs[k].ctx, ItemKeys(wf))
         && forall key :: key in ItemKeys(wf) ==> cs[k].ctx[key] == items[i + k]
  }

  /**
   A session that sends its command for each item: in the order of the list, with the item under
   `current` and under the name it was given, until a reply ends the session.
   */
  lemma {:induction false} ItemsAreSent(sem: Semantics, driver: Driver, fuel: nat, room: nat, wf: Definition,
                                        items: seq<Value>, what: Value, i: nat, fr: Frame, msg: Message,
                                        log: seq<Command>) returns (cs: seq<Command>)
    requires wf.action.Invoke? && wf.iterate == Some(items) && i < |items| && |items| - i <= fuel
    requires forall ctx, msg :: sem.function_(wf, ctx, msg) == Some(what)
    ensures IsSeries(driver, what, msg, log, cs) && BindsItems(wf, items, i, fr.ctx, cs)
    ensures AnsweredOn(driver, wf, log, cs)
    ensures i + |cs| < |items| ==> EndsOn(wf, driver(log + cs).Status())
    ensures var r := Items(sem, driver, fuel, room, wf, i, fr, msg, log);
            r.Some? && r.value.log == log + cs && r.value.msg == driver(log + cs)
    decreases |items| - i
  {
    hide IsSeries, BindsItems, AnsweredOn, EndsOn;
    var c := Command(what, BindItem(wf, fr.ctx, items[i]), msg);
    var reply := driver(log + [c]);
    cs := [c];
    ItemIsSent(driver, wf, items, i, fr.ctx, log, c);
    ExitsIffEndsOn(wf, reply);
    if !EndsOn(wf, reply.Status()) && i + 1 < |items| {
      var fr1 := fr.(ctx := c.ctx, inFly := Some(what));
      var rest := ItemsAreSent(sem, driver, fuel - 1, room, wf, items, what, i + 1, fr1, reply, log + [c]);
      cs := [c] + rest;
      Prefixes(log, c, rest);
      SeriesMore(driver, what, msg, log, c, rest);
      AnsweredMore(driver, wf, log, c, rest);
      BindsMore(wf, items, i, fr.ctx, c, rest);
    }
  }

  lemma ItemIsSent(driver: Driver, wf: Definition, items: seq<Value>, i: nat, ctx: Ctx, log: seq<Command>, c: Command)
    requires i < |items| && c.ctx == BindItem(wf, ctx, items[i])
    ensures IsSeries(driver, c.what, c.msg, log, [c]) && BindsItems(wf, items, i, ctx, [c])
    ensures AnsweredOn(driver, wf, log, [c])
  {
  }

  lemma ExitsIffEndsOn(wf: Definition, msg: Message)
    ensures Exits(wf, msg) <==> EndsOn(wf, msg.Status())
  {
  }

  lemma BindsMore(wf: Definition, items: seq<Value>, i: nat, ctx: Ctx, c: Command, rest: seq<Command>)
    requires i < |items| && c.ctx == BindItem(wf, ctx, items[i]) && BindsItems(wf, items, i + 1, c.ctx, rest)
    ensures BindsItems(wf, items, i, ctx, [c] + rest)
  {
    var cs := [c] + rest;
    forall k | 0 <= k < |cs|
      ensures Binds(ctx, cs[k].ctx, ItemKeys(wf))
      ensures forall key :: key in ItemKeys(wf) ==> cs[k].ctx[key] == items[i + k]
    {
      if k > 0 {
        assert cs[k] == rest[k - 1] && items[i + 1 + (k - 1)] == items[i + k];
        assert Binds(c.ctx, rest[k - 1].ctx, ItemKeys(wf));
      }
    }
  }

  ghost predicate BindsRounds(round: nat, ctx: Ctx, cs: seq<Command>) {
    forall k :: 0 <= k < |cs| ==>
      Binds(ctx, cs[k].ctx, {"loop_count"}) && cs[k].ctx["loop_count"] == Num(round + k)
  }

  /** After every command but the last the loop condition holds of its reply. */
  ghost predicate LoopsOn(sem: Semantics, driver: Driver, wf: Definition, log: seq<Command>, cs: seq<Command>) {
    forall k :: 0 < k < |cs| ==> sem.loopCondition(wf, cs[k - 1].ctx, driver(log + cs[..k]))
  }

  /**
   A session that sends its command in a loop: each time with the number of the round, as long as
   the loop condition holds of the reply and no reply ends the session.
   */
  lemma {:induction false} RoundsAreSent(sem: Semantics, driver: Driver, fuel: nat, room: nat, wf: Definition,
                                         what: Value, round: nat, fr: Frame, msg: Message, log: seq<Command>)
    returns (cs: seq<Command>)
    requires wf.action.Invoke? && wf.iterate.None? && wf.isLoop
    requires forall ctx, msg :: sem.function_(wf, ctx, msg) == Some(what)
    requires Rounds(sem, driver, fuel, room, wf, round, fr, msg, log).Some?
    ensures IsSeries(driver, what, msg, log, cs) && BindsRounds(round, fr.ctx, cs)
    ensures AnsweredOn(driver, wf, log, cs) && LoopsOn(sem, driver, wf, log, cs)
    ensures EndsOn(wf, driver(log + cs).Status())
            || !sem.loopCondition(wf, cs[|cs| - 1].ctx, driver(log + cs))
    ensures var r := Rounds(sem, driver, fuel, room, wf, round, fr, msg, log).value;
            r.log == log + cs && r.msg == driver(log + cs)
    decreases fuel
  {
    hide IsSeries, BindsRounds, AnsweredOn, LoopsOn, Binds;
    var c := Command(what, BindLoop(wf, fr.ctx, round), msg);
    var reply := driver(log + [c]);
    var fr1 := fr.(ctx := c.ctx);
    assert Items(sem, driver, fuel, room, wf, 0, fr1, msg, log) == Act(sem, driver, fuel, room, wf, fr1, msg, log);
    cs := [c];
    RoundIsSent(sem, driver, wf, round, fr.ctx, log, c);
    if !EndsOn(wf, reply.Status()) && sem.loopCondition(wf, c.ctx, reply) {
      var fr2 := fr1.(inFly := Some(what));
      var rest := RoundsAreSent(sem, driver, fuel - 1, room, wf, what, round + 1, fr2, reply, log + [c]);
      cs := [c] + rest;
      Prefixes(log, c, rest);
      SeriesMore(driver, what, msg, log, c, rest);
      AnsweredMore(driver, wf, log, c, rest);
      LoopsMore(sem, driver, wf, round, fr.ctx, log, c, rest);
    }
  }

  lemma RoundIsSent(sem: Semantics, driver: Driver, wf: Definition, round: nat, ctx: Ctx, log: seq<Command>, c: Command)
    requires wf.isLoop && c.ctx == BindLoop(wf, ctx, round)
    ensures IsSeries(driver, c.what, c.msg, log, [c]) && BindsRounds(round, ctx, [c])
    ensures AnsweredOn(driver, wf, log, [c]) && LoopsOn(sem, driver, wf, log, [c])
    ensures Binds(ctx, c.ctx, {"loop_count"}) && c.ctx["loop_count"] == Num(round)
  {
  }

  lemma LoopsMore(sem: Semantics, driver: Driver, wf: Definition, round: nat, ctx: Ctx, log: seq<Command>,
                  c: Command, rest: seq<Command>)
    requires Binds(ctx, c.ctx, {"loop_count"}) && c.ctx["loop_count"] == Num(round)
    requires BindsRounds(round + 1, c.ctx, rest) && LoopsOn(sem, driver, wf, log + [c], rest)
    requires sem.loopCondition(wf, c.ctx, driver(log + [c]))
    ensures BindsRounds(round, ctx, [c] + rest) && LoopsOn(sem, driver, wf, log, [c] + rest)
  {
    var cs := [c] + rest;
    forall k | 0 <= k < |cs|
      ensures Binds(ctx, cs[k].ctx, {"loop_count"}) && cs[k].ctx["loop_count"] == Num(round + k)
    {
      if k > 0 {
        assert cs[k] == rest[k - 1];
      }
    }
    Prefixes(log, c, rest);
    forall k | 0 < k < |cs|
      ensures sem.loopCondition(wf, cs[k - 1].ctx, driver(log + cs[..k]))
    {
      assert log + cs[..k] == log + [c] + rest[..k - 1];
      if k == 1 {
        assert log + [c] + rest[..0] == log + [c];
      } else {
        assert cs[k - 1] == rest[k - 2];
      }
    }
  }

  // ------------------------------------------------------------------
  // Calls, switches and else branches
  // ------------------------------------------------------------------

  /** A switch sends the command of the matching case, else of the default, else nothing. */
  lemma SwitchSends(sem: Semantics, driver: Driver, fuel: nat, room: nat, wf: Definition, fr: Frame,
                    chosen: Definition, what: Value, msg: Message, log: seq<Command>) returns (t: Turn)
    requires wf.action.Switch? && 0 < fuel && 0 < room
    requires var key := sem.switchKey(wf, fr.ctx, msg);
             if key in wf.action.cases then chosen == wf.action.cases[key] else wf.action.fallback == Some(chosen)
    requires SendsOne(sem, wf, chosen, what)
    ensures t.ctx == fr.ctx && t.msg == msg && IsTurn(sem, driver, wf, chosen, what, None, log, t)
    ensures var flow := Act(sem, driver, fuel, room, wf, fr, msg, log);
            flow.Some? && TakesTurn(sem, wf, fr.exported, log, t, flow.value)
  {
    hide Child, TakesTurn, IsTurn, SendsOne;
    t := ChildTakesTurn(sem, driver, fuel, room, wf, fr, chosen, what, msg, log);
  }

  lemma SwitchSendsNothing(sem: Semantics, driver: Driver, fuel: nat, room: nat, wf: Definition, fr: Frame,
                           msg: Message, log: seq<Command>)
    requires wf.action.Switch? && wf.action.fallback.None?
    requires sem.switchKey(wf, fr.ctx, msg) !in wf.action.cases
    ensures var flow := Act(sem, driver, fuel, room, wf, fr, msg, log);
            && flow.Some? && flow.value.log == log && flow.value.frame == fr && !flow.value.exit
            && flow.value.msg.Status() == "success"
  {
  }

  /** What is called: the workflow of that name, under that name unless it has its own. */
  predicate IsCallee(sem: Semantics, name: string, d: Definition) {
    && name in sem.workflows
    && d == sem.workflows[name].(name := d.name)
    && d.name == if sem.workflows[name].name == "" then name else sem.workflows[name].name
  }

  /** A call: an unnamed caller notes whom it calls, and the callee sees that. */
  lemma CallSends(sem: Semantics, driver: Driver, fuel: nat, room: nat, wf: Definition, fr: Frame,
                  d: Definition, what: Value, msg: Message, log: seq<Command>) returns (t: Turn)
    requires wf.action.Call? && 0 < fuel && 0 < room
    requires IsCallee(sem, sem.callee(wf, fr.ctx, msg), d) && SendsOne(sem, wf, d, what)
    ensures var note := Str("calling " + sem.callee(wf, fr.ctx, msg));
            t.ctx == if wf.name == "" then fr.ctx["_meta_name" := note] else fr.ctx
    ensures t.msg == msg && IsTurn(sem, driver, wf, d, what, None, log, t)
    ensures var flow := Act(sem, driver, fuel, room, wf, fr, msg, log);
            flow.Some? && TakesTurn(sem, wf, fr.exported, log, t, flow.value)
  {
    hide Child, TakesTurn, IsTurn, SendsOne;
    var name := sem.callee(wf, fr.ctx, msg);
    var fr1 := fr.(ctx := BindCallee(wf, fr.ctx, name));
    assert Named(sem.workflows[name], name) == d;
    t := ChildTakesTurn(sem, driver, fuel, room, wf, fr1, d, what, msg, log);
  }

  lemma CallOfNobody(sem: Semantics, driver: Driver, fuel: nat, room: nat, wf: Definition, fr: Frame,
                     msg: Message, log: seq<Command>)
    requires wf.action.Call? && sem.callee(wf, fr.ctx, msg) !in sem.workflows
    ensures var flow := Act(sem, driver, fuel, room, wf, fr, msg, log);
            flow.Some? && flow.value.log == log && flow.value.exit && flow.value.msg.Status() == "error"
  {
  }

  /** Where its condition does not hold, a workflow sends the command of its else branch, or nothing. */
  lemma ElseSends(sem: Semantics, driver: Driver, fuel: nat, room: nat, p: Prepared, branch: Definition, what: Value,
                  msg: Message, log: seq<Command>) returns (t: Turn)
    requires !sem.condition(p.wf, p.ctx) || !sem.loopCondition(p.wf, p.ctx, msg)
    requires p.wf.otherwise == Some(branch) && SendsOne(sem, p.wf, branch, what) && 1 < fuel && 1 < room
    ensures t.ctx == p.ctx && t.msg == msg && IsTurn(sem, driver, p.wf, branch, what, None, log, t)
    ensures Session(sem, driver, fuel, room, p, msg, log)
            == Some(Reply(true, t.out.msg, PassedOn(p.wf, t.out.deltas),
                          MergeAll(sem, p.ctx, t.out.deltas), log + [t.command]))
  {
    hide Absorb, MergeAll, PassedOn;
    var c := Spawn(sem, p.wf, p.ctx, branch, msg).value;
    CommandRuns(sem, driver, fuel - 1, room - 1, c, what, msg, log);
    var cmd := Command(what, c.ctx, msg);
    t := Turn(p.ctx, msg, cmd, sem.export_(c.wf, Some(what), c.ctx, driver(log + [cmd])));
    AbsorbIsMerge(sem, p.wf, Frame(p.ctx, [], None), t.out.deltas);
    assert [] + PassedOn(p.wf, t.out.deltas) == PassedOn(p.wf, t.out.deltas);
  }

  /** What cannot go on ends the session with an error, and nothing is sent. */
  ghost predicate Fails(fr: Frame, log: seq<Command>, flow: Option<Flow>) {
    && flow.Some? && flow.value.exit && flow.value.msg.Status() == "error"
    && flow.value.log == log && flow.value.frame == fr
  }

  /** A command without a function, a child that cannot be prepared, and an empty list of steps. */
  lemma CannotGoOn(sem: Semantics, driver: Driver, fuel: nat, room: nat, wf: Definition, fr: Frame, d: Definition,
                   msg: Message, log: seq<Command>)
    ensures wf.action.Invoke? && sem.function_(wf, fr.ctx, msg).None? ==>
              Fails(fr, log, Act(sem, driver, fuel, room, wf, fr, msg, log))
    ensures sem.prepare(d, fr.ctx - {"hooks"}, msg).None? ==>
              Fails(fr, log, Child(sem, driver, fuel, room, wf, fr, d, msg, log))
    ensures wf.action == Steps([]) ==>
              Fails(fr, log, Act(sem, driver, fuel, room, wf, fr, msg, log))
  {
  }

  /** A workflow with no action succeeds; one with an empty list to iterate over is not even started. */
  lemma NothingToDo(sem: Semantics, driver: Driver, fuel: nat, room: nat, p: Prepared, fr: Frame, msg: Message,
                    log: seq<Command>)
    ensures p.wf.action.Nothing? ==>
              var flow := Act(sem, driver, fuel, room, p.wf, fr, msg, log);
              && flow.Some? && !flow.value.exit && flow.value.frame == fr && flow.value.log == log
              && flow.value.msg.Status() == "success"
    ensures sem.condition(p.wf, p.ctx) && sem.loopCondition(p.wf, p.ctx, msg) && p.wf.iterate == Some([]) ==>
              var r := Session(sem, driver, fuel, room, p, msg, log);
              && r.Some? && !r.value.ran && r.value.log == log && r.value.exports == []
              && r.value.msg.Status() == "success"
  {
  }

  lemma NothingIsSent(sem: Semantics, driver: Driver, fuel: nat, room: nat, p: Prepared, msg: Message,
                      log: seq<Command>)
    requires !sem.condition(p.wf, p.ctx) || !sem.loopCondition(p.wf, p.ctx, msg)
    requires p.wf.otherwise.None?
    ensures var r := Session(sem, driver, fuel, room, p, msg, log);
            && r.Some? && !r.value.ran && r.value.log == log && r.value.exports == []
            && r.value.msg.Status() == "success"
  {
  }
}
