/**
 The reference meaning of workflows: a direct recursive evaluator.

 Workflows may call each other recursively and loop without bound, so evaluation is partial.
 `fuel` bounds the depth of the recursion; `None` means that this much fuel does not decide
 the outcome. A session needs an ID while it runs; `room` is the number of IDs left.
 */
module Evaluator {
  import opened Values
  import opened Workflow

  /** Drivers answer a command as they like, given all commands sent so far. */
  type Driver = seq<Command> -> Message

  /** Where a session stands after part of its work; `exit` skips the rest. */
  datatype Flow = Flow(frame: Frame, msg: Message, exit: bool, log: seq<Command>)

  /** What a session hands to its parent. */
  datatype Reply = Reply(ran: bool, msg: Message, exports: seq<Ctx>, ctx: Ctx, log: seq<Command>)

  function Panic(fr: Frame, reason: string, log: seq<Command>): Flow {
    Flow(fr, ErrorMessage(reason), true, log)
  }

  /** A child's reply, taken in by its parent. */
  function Resume(sem: Semantics, wf: Definition, fr: Frame, r: Reply): Flow {
    Flow(Absorb(sem, wf, fr, r.exports), r.msg, Exits(wf, r.msg), r.log)
  }

  function Finish(sem: Semantics, wf: Definition, flow: Flow): Reply {
    var e := sem.export_(wf, flow.frame.inFly, flow.frame.ctx, flow.msg);
    Reply(true, e.msg, flow.frame.exported + e.deltas, e.ctx, flow.log)
  }

  function Skip(p: Prepared, msg: Message, log: seq<Command>): Reply {
    Reply(false, SuccessOf(msg), [], p.ctx, log)
  }

  function Session(sem: Semantics, driver: Driver, fuel: nat, room: nat,
                   p: Prepared, msg: Message, log: seq<Command>): Option<Reply>
    decreases fuel, 0
  {
    if sem.condition(p.wf, p.ctx) && sem.loopCondition(p.wf, p.ctx, msg) then
      if p.wf.iterate == Some([]) then Some(Skip(p, msg, log))
      else if fuel == 0 || room == 0 then None
      else
        match Rounds(sem, driver, fuel - 1, room - 1, p.wf, 0, Frame(p.ctx, [], None), msg, log)
        case None => None
        case Some(flow) => Some(Finish(sem, p.wf, flow))
    else if p.wf.otherwise.Some? then
      if fuel == 0 || room == 0 then None
      else Else(sem, driver, fuel, room, p, p.wf.otherwise.value, msg, log)
    else Some(Skip(p, msg, log))
  }

  /** The else branch replaces the workflow; what it exports passes through. */
  function Else(sem: Semantics, driver: Driver, fuel: nat, room: nat,
                p: Prepared, branch: Definition, msg: Message, log: seq<Command>): Option<Reply>
    requires 0 < fuel && 0 < room
    decreases fuel - 1, 1
  {
    match Spawn(sem, p.wf, p.ctx, branch, msg)
    case None => Some(Reply(true, ErrorMessage("prepare"), [], p.ctx, log))
    case Some(c) =>
      match Session(sem, driver, fuel - 1, room - 1, c, msg, log)
      case None => None
      case Some(r) =>
        var fr := Absorb(sem, p.wf, Frame(p.ctx, [], None), r.exports);
        Some(Reply(true, r.msg, fr.exported, fr.ctx, r.log))
  }

  function Rounds(sem: Semantics, driver: Driver, fuel: nat, room: nat, wf: Definition,
                  round: nat, fr: Frame, msg: Message, log: seq<Command>): Option<Flow>
    decreases fuel, 4
  {
    var fr1 := fr.(ctx := BindLoop(wf, fr.ctx, round));
    match Items(sem, driver, fuel, room, wf, 0, fr1, msg, log)
    case None => None
    case Some(flow) =>
      if !flow.exit && wf.isLoop && sem.loopCondition(wf, flow.frame.ctx, flow.msg) then
        if fuel == 0 then None
        else Rounds(sem, driver, fuel - 1, room, wf, round + 1, flow.frame, flow.msg, flow.log)
      else Some(flow)
  }

  function Items(sem: Semantics, driver: Driver, fuel: nat, room: nat, wf: Definition,
                 i: nat, fr: Frame, msg: Message, log: seq<Command>): Option<Flow>
    decreases fuel, 3
  {
    match wf.iterate
    case None => Act(sem, driver, fuel, room, wf, fr, msg, log)
    case Some(items) =>
      if |items| <= i then Some(Panic(fr, "index", log))
      else
        var fr1 := fr.(ctx := BindItem(wf, fr.ctx, items[i]));
        match Act(sem, driver, fuel, room, wf, fr1, msg, log)
        case None => None
        case Some(flow) =>
          if !flow.exit && i + 1 < |items| then
            if fuel == 0 then None
            else Items(sem, driver, fuel - 1, room, wf, i + 1, flow.frame, flow.msg, flow.log)
          else Some(flow)
  }

  function Act(sem: Semantics, driver: Driver, fuel: nat, room: nat, wf: Definition,
               fr: Frame, msg: Message, log: seq<Command>): Option<Flow>
    decreases fuel, 2
  {
    match wf.action
    case Call =>
      var name := sem.callee(wf, fr.ctx, msg);
      var fr1 := fr.(ctx := BindCallee(wf, fr.ctx, name));
      if name in sem.workflows then
        Child(sem, driver, fuel, room, wf, fr1, Named(sem.workflows[name], name), msg, log)
      else Some(Panic(fr1, "not defined", log))
    case Invoke =>
      (match sem.function_(wf, fr.ctx, msg)
       case None => Some(Panic(fr, "function", log))
       case Some(f) =>
         var log1 := log + [Command(f, fr.ctx, msg)];
         var reply := driver(log1);
         Some(Flow(fr.(inFly := Some(f)), reply, Exits(wf, reply), log1)))
    case Steps(steps) =>
      StepsFrom(sem, driver, fuel, room, wf, steps, 0, fr, msg, log)
    case Switch(cases, fallback) =>
      var key := sem.switchKey(wf, fr.ctx, msg);
      if key in cases then Child(sem, driver, fuel, room, wf, fr, cases[key], msg, log)
      else if fallback.Some? then Child(sem, driver, fuel, room, wf, fr, fallback.value, msg, log)
      else Some(Flow(fr, SuccessOf(msg), false, log))
    case Nothing => Some(Flow(fr, SuccessMessage(), false, log))
  }

  function Child(sem: Semantics, driver: Driver, fuel: nat, room: nat, wf: Definition,
                 fr: Frame, child: Definition, msg: Message, log: seq<Command>): Option<Flow>
    decreases fuel, 1
  {
    match Spawn(sem, wf, fr.ctx, child, msg)
    case None => Some(Panic(fr, "prepare", log))
    case Some(p) =>
      match Session(sem, driver, fuel, room, p, msg, log)
      case None => None
      case Some(r) => Some(Resume(sem, wf, fr, r))
  }

  function StepsFrom(sem: Semantics, driver: Driver, fuel: nat, room: nat, wf: Definition,
                     steps: seq<Definition>, j: nat, fr: Frame, msg: Message, log: seq<Command>): Option<Flow>
    decreases fuel, 1
  {
    if |steps| <= j then Some(Panic(fr, "index", log))
    else
      match Spawn(sem, wf, fr.ctx, steps[j], msg)
      case None => Some(Panic(fr, "prepare", log))
      case Some(p) =>
        match Session(sem, driver, fuel, room, p.(ctx := p.ctx["step_number" := Num(j)]), msg, log)
        case None => None
        case Some(r) =>
          var flow := Resume(sem, wf, fr, r);
          if !flow.exit && j + 1 < |steps| then
            if fuel == 0 then None
            else StepsFrom(sem, driver, fuel - 1, room, wf, steps, j + 1, flow.frame, flow.msg, flow.log)
          else Some(flow)
  }
}
