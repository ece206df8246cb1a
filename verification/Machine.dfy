/**
 The session machine as a function on states: sessions kept in an ID-keyed store, one piece
 of work in hand, and everything else waiting to be continued.

 With neither threads nor parallel iteration there is never more than one goroutine with work
 to do; `Focus` is that goroutine. `noop` and the empty action call `continueExec` of the same
 session in tail position, which is the same as handing it to the next step.
 */
module Machine {
  import opened Values
  import opened Workflow
  import opened Evaluator
  import IdMap

  datatype Session = Session(
    parent: Option<nat>,
    wf: Definition,
    ctx: Ctx,
    current: nat,
    iteration: nat,
    loopCount: nat,
    exported: seq<Ctx>,
    inElse: bool,
    inFly: Option<Value>)
  {
    function Data(): Frame {
      Frame(ctx, exported, inFly)
    }

    function WithData(fr: Frame): Session {
      this.(ctx := fr.ctx, exported := fr.exported, inFly := fr.inFly)
    }
  }

  function NewSession(parent: Option<nat>, p: Prepared): Session {
    Session(parent, p.wf, p.ctx, 0, 0, 0, [], false, None)
  }

  datatype Focus =
    | Launch(s: Session, msg: Message)
    | LaunchElse(s: Session, msg: Message)
    | Continue(id: nat, msg: Message, exports: seq<Ctx>)
    | Await(session: nat)
    | Idle

  /** How the root session ended. */
  datatype Final = Final(msg: Message, ctx: Ctx)

  datatype State = State(
    sessions: map<nat, Session>,
    counter: nat,
    commands: seq<Command>,
    focus: Focus,
    final: Option<Final>)
  {
    predicate Wf() {
      counter < IdMap.MAX_ID && IdMap.Bounded(sessions.Keys, IdMap.MAX_ID)
    }

    function Update(id: nat, s: Session): State {
      this.(sessions := sessions[id := s])
    }
  }

  function Complete(sem: Semantics, m: State, id: nat, msg: Message): State
    requires id in m.sessions
  {
    var s := m.sessions[id];
    var e := if s.inElse then Exported(s.ctx, [], msg) else sem.export_(s.wf, s.inFly, s.ctx, msg);
    var m1 := m.(sessions := m.sessions - {id});
    if s.parent.Some? then m1.(focus := Continue(s.parent.value, e.msg, s.exported + e.deltas))
    else m1.(focus := Idle, final := Some(Final(e.msg, e.ctx)))
  }

  /** A session that has not been saved yet. */
  function Execute(sem: Semantics, m: State, s: Session, msg: Message): State {
    if sem.condition(s.wf, s.ctx) && sem.loopCondition(s.wf, s.ctx, msg) then
      if s.wf.iterate != Some([]) then m.(focus := Launch(s, msg))
      else Noop(m, s, msg)
    else if s.wf.otherwise.Some? then m.(focus := LaunchElse(s.(inElse := true), msg))
    else Noop(m, s, msg)
  }

  function Noop(m: State, s: Session, msg: Message): State {
    if s.parent.Some? then m.(focus := Continue(s.parent.value, SuccessOf(msg), []))
    else m.(focus := Idle)
  }

  function ExecuteChild(sem: Semantics, m: State, id: nat, wf: Definition, msg: Message): State
    requires id in m.sessions
  {
    match Spawn(sem, m.sessions[id].wf, m.sessions[id].ctx, wf, msg)
    case None => Complete(sem, m, id, ErrorMessage("prepare"))
    case Some(p) => Execute(sem, m, NewSession(Some(id), p), msg)
  }

  function ExecuteStep(sem: Semantics, m: State, id: nat, steps: seq<Definition>, msg: Message): State
    requires id in m.sessions
  {
    var s := m.sessions[id];
    if |steps| <= s.current then Complete(sem, m, id, ErrorMessage("index"))
    else
      match Spawn(sem, s.wf, s.ctx, steps[s.current], msg)
      case None => Complete(sem, m, id, ErrorMessage("prepare"))
      case Some(p) =>
        Execute(sem, m, NewSession(Some(id), p.(ctx := p.ctx["step_number" := Num(s.current)])), msg)
  }

  function ExecuteSwitch(sem: Semantics, m: State, id: nat, msg: Message): State
    requires id in m.sessions && m.sessions[id].wf.action.Switch?
  {
    var s := m.sessions[id];
    var key := sem.switchKey(s.wf, s.ctx, msg);
    if key in s.wf.action.cases then ExecuteChild(sem, m, id, s.wf.action.cases[key], msg)
    else if s.wf.action.fallback.Some? then ExecuteChild(sem, m, id, s.wf.action.fallback.value, msg)
    else m.(focus := Continue(id, SuccessOf(msg), []))
  }

  function ExecuteAction(sem: Semantics, m: State, id: nat, msg: Message): State
    requires id in m.sessions
  {
    var s := m.sessions[id];
    match s.wf.action
    case Call =>
      var name := sem.callee(s.wf, s.ctx, msg);
      var m1 := m.Update(id, s.(ctx := BindCallee(s.wf, s.ctx, name)));
      if name in sem.workflows then ExecuteChild(sem, m1, id, Named(sem.workflows[name], name), msg)
      else Complete(sem, m1, id, ErrorMessage("not defined"))
    case Invoke =>
      (match sem.function_(s.wf, s.ctx, msg)
       case None => Complete(sem, m, id, ErrorMessage("function"))
       case Some(f) =>
         m.Update(id, s.(inFly := Some(f)))
         .(commands := m.commands + [Command(f, s.ctx, msg)], focus := Await(id)))
    case Steps(steps) => ExecuteStep(sem, m.Update(id, s.(current := 0)), id, steps, msg)
    case Switch(_, _) => ExecuteSwitch(sem, m, id, msg)
    case Nothing => m.(focus := Continue(id, SuccessMessage(), []))
  }

  function ExecuteIteration(sem: Semantics, m: State, id: nat, msg: Message): State
    requires id in m.sessions
  {
    var s := m.sessions[id];
    match s.wf.iterate
    case None => ExecuteAction(sem, m, id, msg)
    case Some(items) =>
      if |items| <= s.iteration then Complete(sem, m, id, ErrorMessage("index"))
      else
        var s1 := s.(current := 0, ctx := BindItem(s.wf, s.ctx, items[s.iteration]));
        ExecuteAction(sem, m.Update(id, s1), id, msg)
  }

  function ExecuteRound(sem: Semantics, m: State, id: nat, msg: Message): State
    requires id in m.sessions
  {
    var s := m.sessions[id];
    if s.wf.isLoop then
      var s1 := s.(ctx := BindLoop(s.wf, s.ctx, s.loopCount), iteration := 0, current := 0);
      ExecuteIteration(sem, m.Update(id, s1), id, msg)
    else ExecuteIteration(sem, m, id, msg)
  }

  /** The action of one item is over and the session does not exit. */
  function AfterAction(sem: Semantics, m: State, id: nat, msg: Message): State
    requires id in m.sessions
  {
    var s := m.sessions[id];
    if s.wf.iterate.Some? && s.iteration < |s.wf.iterate.value| - 1 then
      ExecuteIteration(sem, m.Update(id, s.(iteration := s.iteration + 1)), id, msg)
    else AfterItems(sem, m, id, msg)
  }

  function AfterItems(sem: Semantics, m: State, id: nat, msg: Message): State
    requires id in m.sessions
  {
    var s := m.sessions[id];
    if s.wf.isLoop && sem.loopCondition(s.wf, s.ctx, msg) then
      ExecuteRound(sem, m.Update(id, s.(loopCount := s.loopCount + 1)), id, msg)
    else Complete(sem, m, id, msg)
  }

  function ContinueExec(sem: Semantics, m: State, id: nat, msg: Message, exports: seq<Ctx>): State
    requires id in m.sessions
  {
    var s := m.sessions[id];
    var s1 := s.WithData(Absorb(sem, s.wf, s.Data(), exports));
    if Exits(s.wf, msg) || s.inElse then Complete(sem, m.Update(id, s1), id, msg)
    else if s.wf.action.Steps? && s.current < |s.wf.action.steps| - 1 then
      ExecuteStep(sem, m.Update(id, s1.(current := s.current + 1)), id, s.wf.action.steps, msg)
    else AfterAction(sem, m.Update(id, s1), id, msg)
  }

  /** Stores a session under a fresh ID. */
  function Save(m: State, s: Session): (r: (State, nat))
    requires m.Wf() && IdMap.HasFree(m.sessions.Keys, IdMap.MAX_ID)
    ensures r.0.Wf() && r.1 !in m.sessions && r.0.sessions == m.sessions[r.1 := s]
  {
    var id := IdMap.NextFree(m.sessions.Keys, m.counter, IdMap.MAX_ID);
    (m.Update(id, s).(counter := IdMap.Bump(id, IdMap.MAX_ID)), id)
  }

  function LaunchSession(sem: Semantics, m: State, s: Session, msg: Message): State
    requires m.Wf() && IdMap.HasFree(m.sessions.Keys, IdMap.MAX_ID)
  {
    var (m1, id) := Save(m, s);
    ExecuteRound(sem, m1, id, msg)
  }

  function LaunchElseBranch(sem: Semantics, m: State, s: Session, msg: Message): State
    requires m.Wf() && IdMap.HasFree(m.sessions.Keys, IdMap.MAX_ID)
    requires s.wf.otherwise.Some?
  {
    var (m1, id) := Save(m, s);
    ExecuteChild(sem, m1, id, s.wf.otherwise.value, msg)
  }

  /** One step of the goroutine in hand, or the answer to the command that is out. */
  function Step(sem: Semantics, driver: Driver, m: State): State {
    match m.focus
    case Launch(s, msg) =>
      // Without a free ID the allocator searches forever.
      if m.Wf() && IdMap.HasFree(m.sessions.Keys, IdMap.MAX_ID) then LaunchSession(sem, m, s, msg) else m
    case LaunchElse(s, msg) =>
      if m.Wf() && IdMap.HasFree(m.sessions.Keys, IdMap.MAX_ID) && s.wf.otherwise.Some? then
        LaunchElseBranch(sem, m, s, msg)
      else m
    case Continue(id, msg, exports) =>
      // A session that is not in the store cannot be continued.
      if id in m.sessions then ContinueExec(sem, m, id, msg, exports) else m.(focus := Idle)
    case Await(id) => m.(focus := Continue(id, driver(m.commands), []))
    case Idle => m
  }

  function Run(sem: Semantics, driver: Driver, m: State, n: nat): State
    decreases n
  {
    if n == 0 then m else Run(sem, driver, Step(sem, driver, m), n - 1)
  }

  /** `StartSession`: a root workflow, whatever else the store holds. */
  function Start(sem: Semantics, m: State, p: Prepared, msg: Message): State {
    Execute(sem, m, NewSession(None, p), msg)
  }
}
