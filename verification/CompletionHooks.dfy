/**
 How a session completes: it exports once, fires the hook for its status and then the exit
 hook, waits for each, and is finalised. A hook is cleared by calling `fireHook` for it again.

 A hook is configured with a block: the name of a workflow, or a list of names to run in
 threads. Any other block, and a child that cannot be prepared, panics; the panic is swallowed,
 and that hook never returns to the session.

 A session that exits early may have other children outstanding, threads or items. While a hook
 is set, every return that reaches the session is taken for the hook's.
 */
module CompletionHooks {
  import opened Values
  import opened Lists

  const ON_SUCCESS := "on_success"
  const ON_FAILURE := "on_failure"
  const ON_ERROR := "on_error"
  const ON_EXIT := "on_exit"

  /** The workflow that a hook starts: a call, or calls in threads. */
  datatype Child = Single(name: string) | Threads(names: seq<string>)

  /**
   The blocks of the session's context, whether a child can be prepared, the session's exports,
   the error kept by parallel iteration, and the number of other children outstanding.
   */
  datatype Setup = Setup(
    hooks: map<string, Value>,
    prepares: Child -> bool,
    export_: Message -> Message,
    iterationOut: Option<Message>,
    others: nat)

  /** Exporting can only turn a status into an error, and only failures are kept. */
  ghost predicate Sound(u: Setup) {
    && (forall m :: u.export_(m).Status() == m.Status() || u.export_(m).Status() == ERROR)
    && (u.iterationOut.Some? ==> u.iterationOut.value.Status() != SUCCESS)
  }

  /** A block that is nil is the same as none. */
  predicate IsHook(u: Setup, name: string) {
    name in u.hooks && u.hooks[name] != Nil
  }

  /** The names in a list, if there is nothing else in it. */
  function Names(items: seq<Value>): (names: Option<seq<string>>)
    ensures names.Some? <==> forall i :: 0 <= i < |items| ==> items[i].Str?
    ensures names.Some? ==> |names.value| == |items|
    ensures names.Some? ==> forall i :: 0 <= i < |items| ==> items[i] == Str(names.value[i])
  {
    if items == [] then Some([])
    else
      var n := |items| - 1;
      match Names(items[..n])
      case None => None
      case Some(names) => if items[n].Str? then Some(names + [items[n].s]) else None
  }

  /** The workflows that a child calls are those that the block names, in order. */
  predicate StandsFor(child: Child, block: Value) {
    match block
    case Str(name) => child == Single(name)
    case List(items) =>
      && child.Threads? && |child.names| == |items|
      && forall i :: 0 <= i < |items| ==> items[i] == Str(child.names[i])
    case Map(fields) => fields == map[] && child == Threads([])
    case _ => false
  }

  /** What a block starts. The length of a map can be taken, so an empty one passes for a list. */
  function ChildOf(block: Value): (child: Option<Child>)
    ensures child.Some? <==>
              || block.Str?
              || (block.List? && forall i :: 0 <= i < |block.items| ==> block.items[i].Str?)
              || block == Map(map[])
    ensures child.Some? ==> StandsFor(child.value, block)
  {
    match block
    case Str(name) => Some(Single(name))
    case List(items) => (match Names(items) case None => None case Some(names) => Some(Threads(names)))
    case Map(fields) => if fields == map[] then Some(Threads([])) else None
    case _ => None
  }

  predicate Launches(u: Setup, name: string) {
    IsHook(u, name) && ChildOf(u.hooks[name]).Some? && u.prepares(ChildOf(u.hooks[name]).value)
  }

  /** The child that a hook launches, if it does. */
  function Launched(u: Setup, name: string): seq<Child> {
    if Launches(u, name) then [ChildOf(u.hooks[name]).value] else []
  }

  datatype State = State(
    currentHook: string,
    saved: Message,
    atWork: set<string>,    // the hooks whose sessions have not returned
    others: nat,            // the other children that have not returned
    stored: bool,           // the session is in the store
    fired: seq<string>,
    exports: nat,
    finals: seq<Message>,
    overlap: bool,          // the overlap panic was reached
    started: seq<Child>)    // the children that were launched

  /** The hook for a status. */
  function StatusHook(msg: Message): (hook: string)
    ensures msg.Status() in {SUCCESS, FAILURE, ERROR} ==> hook == "on_" + msg.Status()
    ensures IsStatusHook(hook)
  {
    if msg.Status() == ERROR then ON_ERROR
    else if msg.Status() == FAILURE then ON_FAILURE
    else ON_SUCCESS
  }

  function HookFired(u: Setup, s: State, name: string, msg: Message): State {
    if s.currentHook != "" then
      if s.currentHook == name then s.(currentHook := "") else s.(overlap := true)
    else if IsHook(u, name) then
      s.(currentHook := name, saved := msg, fired := s.fired + [name],
         atWork := if Launches(u, name) then s.atWork + {name} else s.atWork,
         started := s.started + Launched(u, name))
    else s
  }

  function CompleteHooksFired(u: Setup, s: State, msg: Message): State {
    var s1 := if s.currentHook == "" then HookFired(u, s, StatusHook(msg), msg)
              else if s.currentHook != ON_EXIT then HookFired(u, s, s.currentHook, msg)
              else s;
    if s1.currentHook == "" || s1.currentHook == ON_EXIT then HookFired(u, s1, ON_EXIT, msg) else s1
  }

  /** Parallel iteration surfaces its first failure. */
  function Surface(u: Setup, msg: Message): Message {
    if msg.Status() == SUCCESS && u.iterationOut.Some? then u.iterationOut.value else msg
  }

  function Completed(u: Setup, s: State, msg: Message): State {
    var m := Surface(u, msg);
    if !s.stored then s.(saved := m)
    else
      var m1 := if s.currentHook == "" then u.export_(m) else m;
      var s1 := s.(saved := m1, exports := if s.currentHook == "" then s.exports + 1 else s.exports);
      var s2 := CompleteHooksFired(u, s1, m1);
      if s2.currentHook != "" then s2 else s2.(stored := false, finals := s2.finals + [m1])
  }

  /** Who returns; the session does not ask. */
  datatype Sender = Hook(name: string) | Other

  datatype Return = Return(from: Sender, msg: Message)

  predicate Outstanding(s: State, from: Sender) {
    match from
    case Hook(name) => name in s.atWork
    case Other => s.others > 0
  }

  /** A return reaches the session while a hook is set. */
  predicate CanReturn(s: State, from: Sender) {
    s.stored && s.currentHook != "" && Outstanding(s, from)
  }

  function Gone(s: State, from: Sender): State
    requires Outstanding(s, from)
  {
    match from
    case Hook(name) => s.(atWork := s.atWork - {name})
    case Other => s.(others := s.others - 1)
  }

  lemma GoneIs(s: State, from: Sender)
    requires Outstanding(s, from)
    ensures Gone(s, from) == s.(atWork := Gone(s, from).atWork, others := Gone(s, from).others)
  {
  }

  function HookReturn(u: Setup, s: State, r: Return): State
    requires CanReturn(s, r.from)
  {
    Completed(u, Gone(s, r.from), Passed(s, r.msg))
  }

  /** What the session completes with after a return. */
  function Passed(s: State, msg: Message): Message {
    if msg.Status() == SUCCESS then s.saved else ErrorMessage("hook " + s.currentHook + " failed")
  }

  function Fresh(u: Setup, msg: Message): State {
    State("", msg, {}, u.others, true, [], 0, [], false, [])
  }

  /** The first call of `complete`, and then whatever returns, in any order. */
  ghost predicate IsRun(u: Setup, msg: Message, states: seq<State>, arrivals: seq<Return>) {
    && |states| == |arrivals| + 1
    && states[0] == Completed(u, Fresh(u, msg), msg)
    && (forall k :: 0 <= k < |arrivals| ==>
          CanReturn(states[k], arrivals[k].from) && states[k + 1] == HookReturn(u, states[k], arrivals[k]))
  }

  /** Nothing more can return. */
  ghost predicate Over(s: State) {
    forall from :: !CanReturn(s, from)
  }

  // ------------------------------------------------------------------
  // What every step keeps
  // ------------------------------------------------------------------

  /** The message the session completes with, after its exports. */
  function Exported(u: Setup, msg: Message): Message {
    u.export_(Surface(u, msg))
  }

  predicate IsStatusHook(name: string) {
    name == ON_SUCCESS || name == ON_FAILURE || name == ON_ERROR
  }

  /** The hooks that are due, in order. */
  function Due(u: Setup, msg: Message): (due: seq<string>)
    ensures forall i :: 0 <= i < |due| ==> IsStatusHook(due[i]) || due[i] == ON_EXIT
    ensures |due| <= 2 && (|due| == 2 ==> IsStatusHook(due[0]) && due[1] == ON_EXIT)
  {
    var first := StatusHook(Exported(u, msg));
    (if IsHook(u, first) then [first] else []) + (if IsHook(u, ON_EXIT) then [ON_EXIT] else [])
  }

  /** The hooks still due; it falls with every return. */
  function Phase(u: Setup, msg: Message, s: State): int {
    |Due(u, msg)| + 1 - |s.fired| - (if s.stored then 0 else 1)
  }

  predicate AllSuccess(arrivals: seq<Return>) {
    forall k :: 0 <= k < |arrivals| ==> arrivals[k].msg.Status() == SUCCESS
  }

  /** How many of the hooks cannot be launched. */
  function Broken(u: Setup, names: seq<string>): nat {
    if names == [] then 0
    else Broken(u, names[..|names| - 1]) + (if Launches(u, names[|names| - 1]) then 0 else 1)
  }

  /** The children that the hooks launch, in order. */
  function AllLaunched(u: Setup, names: seq<string>): seq<Child> {
    if names == [] then [] else AllLaunched(u, names[..|names| - 1]) + Launched(u, names[|names| - 1])
  }

  /** The hooks that can be launched. */
  function Launchable(u: Setup, names: seq<string>): (r: seq<string>)
    ensures |r| == |names| - Broken(u, names)
    ensures forall i :: 0 <= i < |r| ==> r[i] in names && Launches(u, r[i])
  {
    if names == [] then []
    else
      var n := |names| - 1;
      Launchable(u, names[..n]) + (if Launches(u, names[n]) then [names[n]] else [])
  }

  /** Which hooks were fired and where the session stands. */
  ghost predicate Progress(u: Setup, msg: Message, s: State, n: nat) {
    var due := Due(u, msg);
    && !s.overlap && s.exports == 1
    && s.fired <= due && n <= |due|
    && (if s.stored then
          && |s.fired| == n + 1 && s.currentHook == s.fired[n] && s.finals == []
        else
          && s.currentHook == "" && |s.fired| == n == |due|
          && |s.finals| == 1)
  }

  /** Every hook that was launched and every other child is still out or has returned. */
  ghost predicate Balance(u: Setup, s: State, n: nat) {
    && s.atWork <= Elements(s.fired)
    && (forall name :: name in s.atWork ==> Launches(u, name))
    && |s.atWork| + s.others + n == u.others + |s.fired| - Broken(u, s.fired)
    && s.started == AllLaunched(u, s.fired)
  }

  /** The message in hand: what the session exported, or an error once a return was no success. */
  ghost predicate Carries(u: Setup, msg: Message, s: State, arrivals: seq<Return>) {
    var m := if s.stored || s.finals == [] then s.saved else s.finals[0];
    if AllSuccess(arrivals) then m == Exported(u, msg) else m.Status() == ERROR
  }

  ghost predicate Inv(u: Setup, msg: Message, s: State, arrivals: seq<Return>) {
    && Progress(u, msg, s, |arrivals|)
    && Balance(u, s, |arrivals|)
    && Carries(u, msg, s, arrivals)
  }

  lemma FirstCall(u: Setup, msg: Message)
    ensures Inv(u, msg, Completed(u, Fresh(u, msg), msg), [])
  {
    hide Due, Launches, Completed;
    FirstProgress(u, msg);
    FirstFired(u, msg);
    var s := Completed(u, Fresh(u, msg), msg);
    assert Broken(u, []) == 0 && AllLaunched(u, []) == [] && [s.currentHook][..0] == [];
  }

  lemma FirstFired(u: Setup, msg: Message)
    ensures var s := Completed(u, Fresh(u, msg), msg);
            && s.others == u.others
            && (if s.fired == [] then s.atWork == {}
                else
                  && s.fired == [s.currentHook]
                  && s.atWork == (if Launches(u, s.currentHook) then {s.currentHook} else {}))
            && s.started == (if s.fired == [] then [] else Launched(u, s.currentHook))
  {
    hide Launches, Launched, Due;
  }

  lemma FirstProgress(u: Setup, msg: Message)
    ensures Progress(u, msg, Completed(u, Fresh(u, msg), msg), 0)
    ensures Carries(u, msg, Completed(u, Fresh(u, msg), msg), [])
  {
  }

  /** The next hook due, if any is left. */
  function NextDue(u: Setup, msg: Message, n: nat): seq<string> {
    if n < |Due(u, msg)| then [Due(u, msg)[n]] else []
  }

  /** While a hook is set, completing clears it and fires the exit hook, or finalises the session. */
  lemma Cleared(u: Setup, s: State, m: Message)
    requires s.stored && (IsStatusHook(s.currentHook) || s.currentHook == ON_EXIT)
    ensures var s', m1 := Completed(u, s, m), Surface(u, m);
            if s.currentHook == ON_EXIT || !IsHook(u, ON_EXIT) then
              s' == s.(currentHook := "", saved := m1, stored := false, finals := s.finals + [m1])
            else
              s' == s.(currentHook := ON_EXIT, saved := m1, fired := s.fired + [ON_EXIT],
                       atWork := if Launches(u, ON_EXIT) then s.atWork + {ON_EXIT} else s.atWork,
                       started := s.started + Launched(u, ON_EXIT))
  {
    hide Launches, Launched;
  }

  lemma ReturnProgress(u: Setup, msg: Message, s: State, n: nat, r: Return)
    requires Progress(u, msg, s, n) && CanReturn(s, r.from)
    ensures var s' := HookReturn(u, s, r);
            && Progress(u, msg, s', n + 1)
            && Phase(u, msg, s') < Phase(u, msg, s)
            && s'.fired == s.fired + NextDue(u, msg, n + 1)
            && s'.others == Gone(s, r.from).others
            && s'.atWork == Gone(s, r.from).atWork
                            + (if n + 1 < |Due(u, msg)| && Launches(u, Due(u, msg)[n + 1])
                               then {Due(u, msg)[n + 1]} else {})
            && s'.started == s.started + (if n + 1 < |Due(u, msg)| then Launched(u, Due(u, msg)[n + 1]) else [])
  {
    hide Launches, Launched, Completed;
    assert s.currentHook == Due(u, msg)[n];
    assert IsStatusHook(s.currentHook) ==> n == 0;
    assert s.currentHook == ON_EXIT ==> n == |Due(u, msg)| - 1;
    Cleared(u, Gone(s, r.from), Passed(s, r.msg));
  }

  lemma GoneCounts(s: State, from: Sender)
    requires Outstanding(s, from)
    ensures Gone(s, from).atWork <= s.atWork
    ensures |Gone(s, from).atWork| + Gone(s, from).others == |s.atWork| + s.others - 1
  {
  }

  lemma ReturnBalance(u: Setup, msg: Message, s: State, n: nat, r: Return)
    requires Progress(u, msg, s, n) && Balance(u, s, n) && CanReturn(s, r.from)
    ensures Balance(u, HookReturn(u, s, r), n + 1)
  {
    hide HookReturn, Due, Launches, Launched, Elements, Gone, Outstanding;
    ReturnProgress(u, msg, s, n, r);
    GoneCounts(s, r.from);
    var s', due := HookReturn(u, s, r), Due(u, msg);
    if n + 1 < |due| {
      FiredMore(u, s.fired, due[n + 1]);
      DueIsDistinct(u, msg);
      assert s.fired == due[..n + 1];
      assert due[n + 1] !in Elements(s.fired);
    } else {
      assert s'.fired == s.fired;
    }
  }

  lemma DueIsDistinct(u: Setup, msg: Message)
    ensures forall n :: 0 <= n < |Due(u, msg)| ==> Due(u, msg)[n] !in Elements(Due(u, msg)[..n])
  {
  }

  lemma FiredMore(u: Setup, fired: seq<string>, name: string)
    ensures Broken(u, fired + [name]) == Broken(u, fired) + (if Launches(u, name) then 0 else 1)
    ensures AllLaunched(u, fired + [name]) == AllLaunched(u, fired) + Launched(u, name)
    ensures Elements(fired + [name]) == Elements(fired) + {name}
  {
    assert (fired + [name])[..|fired|] == fired;
  }

  lemma HookIsDue(u: Setup, msg: Message, s: State, n: nat)
    requires Progress(u, msg, s, n) && s.stored
    ensures IsStatusHook(s.currentHook) || s.currentHook == ON_EXIT
  {
    assert s.currentHook == Due(u, msg)[n];
  }

  lemma ReturnCarries(u: Setup, msg: Message, s: State, arrivals: seq<Return>, r: Return)
    requires Sound(u) && Progress(u, msg, s, |arrivals|) && Carries(u, msg, s, arrivals) && CanReturn(s, r.from)
    ensures Carries(u, msg, HookReturn(u, s, r), arrivals + [r])
  {
    hide Due, Launches, Completed;
    HookIsDue(u, msg, s, |arrivals|);
    Cleared(u, Gone(s, r.from), Passed(s, r.msg));
    var all := arrivals + [r];
    assert all[|arrivals|] == r;
    assert forall k :: 0 <= k < |arrivals| ==> all[k] == arrivals[k];
    assert AllSuccess(all) <==> AllSuccess(arrivals) && r.msg.Status() == SUCCESS;
    assert Surface(u, Exported(u, msg)) == Exported(u, msg);
  }

  lemma HookReturns(u: Setup, msg: Message, s: State, arrivals: seq<Return>, r: Return)
    requires Sound(u) && Inv(u, msg, s, arrivals) && CanReturn(s, r.from)
    ensures var s', all := HookReturn(u, s, r), arrivals + [r];
            && Inv(u, msg, s', all)
            && 0 <= Phase(u, msg, s') < Phase(u, msg, s)
            && s'.fired <= Due(u, msg) && s'.exports == 1 && !s'.overlap
            && |s'.finals| == (if s'.stored then 0 else 1)
            && (!s'.stored ==> s'.fired == Due(u, msg)
                               && if AllSuccess(all) then s'.finals == [Exported(u, msg)]
                                  else s'.finals[0].Status() == ERROR)
  {
    hide HookReturn, CanReturn, Due, AllSuccess, Exported, Balance;
    ReturnProgress(u, msg, s, |arrivals|, r);
    ReturnBalance(u, msg, s, |arrivals|, r);
    ReturnCarries(u, msg, s, arrivals, r);
  }

  lemma {:induction false} Reachable(u: Setup, msg: Message, states: seq<State>, arrivals: seq<Return>, k: nat)
    requires Sound(u) && IsRun(u, msg, states, arrivals) && k < |states|
    ensures Inv(u, msg, states[k], arrivals[..k])
    decreases k
  {
    hide Inv, Completed, HookReturn;
    if k == 0 {
      FirstCall(u, msg);
      assert arrivals[..0] == [];
    } else {
      Reachable(u, msg, states, arrivals, k - 1);
      HookReturns(u, msg, states[k - 1], arrivals[..k - 1], arrivals[k - 1]);
      assert arrivals[..k] == arrivals[..k - 1] + [arrivals[k - 1]];
    }
  }

  // ------------------------------------------------------------------
  // The main results, whatever arrivals and in whatever order
  // ------------------------------------------------------------------

  /**
   The hooks fired are a prefix of those due: at most one for the status, and after it at most
   one exit hook. Exports run once, no hook is fired while another is set, and the session is
   finalised at most once.
   */
  lemma HooksInOrder(u: Setup, msg: Message, states: seq<State>, arrivals: seq<Return>, k: nat)
    requires Sound(u) && IsRun(u, msg, states, arrivals) && k < |states|
    ensures states[k].fired <= Due(u, msg)
    ensures states[k].exports == 1 && !states[k].overlap
    ensures |states[k].finals| == if states[k].stored then 0 else 1
  {
    hide Balance, Carries;
    Reachable(u, msg, states, arrivals, k);
  }

  lemma {:induction false} LaunchedStandFor(u: Setup, names: seq<string>)
    ensures |AllLaunched(u, names)| == |Launchable(u, names)|
    ensures forall i :: 0 <= i < |Launchable(u, names)| ==>
              var name := Launchable(u, names)[i];
              name in u.hooks && StandsFor(AllLaunched(u, names)[i], u.hooks[name])
    decreases |names|
  {
    hide StandsFor;
    if names != [] {
      LaunchedStandFor(u, names[..|names| - 1]);
    }
  }

  /** What is launched for the hooks fired so far is what their blocks name, in order. */
  lemma HooksCallWhatTheyName(u: Setup, msg: Message, states: seq<State>, arrivals: seq<Return>, k: nat)
    requires Sound(u) && IsRun(u, msg, states, arrivals) && k < |states|
    ensures var hooks := Launchable(u, states[k].fired);
            && |states[k].started| == |hooks|
            && forall i :: 0 <= i < |hooks| ==>
                 hooks[i] in u.hooks && StandsFor(states[k].started[i], u.hooks[hooks[i]])
  {
    hide Progress, Carries, StandsFor, Launches;
    Reachable(u, msg, states, arrivals, k);
    LaunchedStandFor(u, states[k].fired);
  }

  /** Which hooks are due, by name: the one for the exported status, and then the exit hook. */
  lemma DueMeans(u: Setup, msg: Message)
    ensures var m := u.export_(if msg.Status() == "success" && u.iterationOut.Some? then u.iterationOut.value else msg);
            var hook := if m.Status() == "error" || m.Status() == "failure" then "on_" + m.Status() else "on_success";
            var first := if hook in u.hooks && u.hooks[hook] != Nil then [hook] else [];
            var second := if "on_exit" in u.hooks && u.hooks["on_exit"] != Nil then ["on_exit"] else [];
            Due(u, msg) == first + second && Exported(u, msg) == m
  {
  }

  /** Every return brings the session closer to its end. */
  lemma PhaseFalls(u: Setup, msg: Message, states: seq<State>, arrivals: seq<Return>, k: nat)
    requires Sound(u) && IsRun(u, msg, states, arrivals) && k < |arrivals|
    ensures 0 <= Phase(u, msg, states[k + 1]) < Phase(u, msg, states[k])
  {
    hide Inv, HookReturn, Completed;
    Reachable(u, msg, states, arrivals, k);
    HookReturns(u, msg, states[k], arrivals[..k], arrivals[k]);
  }

  /**
   When nothing more can return, the session has been finalised, exactly once, if and only if
   there were as many other children outstanding as hooks due that cannot be launched. Its
   message is the exported one if all returns were a success and an error otherwise.
   */
  lemma FinalisedIffNoneMissing(u: Setup, msg: Message, states: seq<State>, arrivals: seq<Return>)
    requires Sound(u) && IsRun(u, msg, states, arrivals) && Over(states[|arrivals|])
    ensures var s := states[|arrivals|];
            && (!s.stored <==> Broken(u, Due(u, msg)) <= u.others)
            && (!s.stored ==> |s.finals| == 1 && s.fired == Due(u, msg))
            && (!s.stored ==> if AllSuccess(arrivals) then s.finals == [Exported(u, msg)]
                              else s.finals[0].Status() == ERROR)
  {
    hide Due, Completed, HookReturn;
    var n := |arrivals|;
    var s := states[n];
    Reachable(u, msg, states, arrivals, n);
    assert arrivals[..n] == arrivals;
    if s.stored {
      assert !CanReturn(s, Other);
      assert forall name :: name in s.atWork ==> CanReturn(s, Hook(name));
      assert s.atWork == {};
      BrokenPrefix(u, s.fired, Due(u, msg));
    } else {
      assert s.fired == Due(u, msg);
    }
  }

  lemma {:induction false} BrokenPrefix(u: Setup, a: seq<string>, b: seq<string>)
    requires a <= b
    ensures Broken(u, a) <= Broken(u, b)
    decreases |b|
  {
    if a != b {
      BrokenPrefix(u, a, b[..|b| - 1]);
    }
  }

  lemma {:induction false} BrokenIsSome(u: Setup, names: seq<string>, i: nat)
    requires i < |names| && !Launches(u, names[i])
    ensures Broken(u, names) > 0
    decreases |names|
  {
    if i < |names| - 1 {
      BrokenIsSome(u, names[..|names| - 1], i);
    }
  }

  lemma {:induction false} BrokenIsNone(u: Setup, names: seq<string>)
    ensures Broken(u, names) == 0 <==> forall i :: 0 <= i < |names| ==> Launches(u, names[i])
    decreases |names|
  {
    if names != [] {
      BrokenIsNone(u, names[..|names| - 1]);
    }
  }

  /** Without other children, it is finalised if and only if every hook due can be launched. */
  lemma FinalisedIffAllLaunch(u: Setup, msg: Message, states: seq<State>, arrivals: seq<Return>)
    requires Sound(u) && IsRun(u, msg, states, arrivals) && Over(states[|arrivals|]) && u.others == 0
    ensures !states[|arrivals|].stored <==> forall i :: 0 <= i < |Due(u, msg)| ==> Launches(u, Due(u, msg)[i])
  {
    hide Due, IsRun, Over, Launches;
    FinalisedIffNoneMissing(u, msg, states, arrivals);
    BrokenIsNone(u, Due(u, msg));
  }

  /** A hook given as a workflow in place of its name, as the steps of a workflow are. */
  const INLINE := Map(map["call_workflow" := Str("notify")])

  /**
   With such a block and no other children the session stays in the store for ever, whatever
   the other hooks are and return; and if it is the only hook, nothing ever arrivals.
   */
  lemma InlineHookStays(u: Setup, msg: Message, states: seq<State>, arrivals: seq<Return>)
    requires Sound(u) && ON_EXIT in u.hooks && u.hooks[ON_EXIT] == INLINE && u.others == 0
    requires IsRun(u, msg, states, arrivals)
    ensures states[|arrivals|].stored && states[|arrivals|].finals == []
    ensures u.hooks.Keys == {ON_EXIT} ==> arrivals == [] && Over(states[0])
  {
    hide Completed, Due, HookReturn, Launches;
    ExitIsDue(u, msg);
    InlineDoesNotLaunch(u);
    HooksInOrder(u, msg, states, arrivals, |arrivals|);
    if !states[|arrivals|].stored {
      BrokenIsSome(u, Due(u, msg), |Due(u, msg)| - 1);
      FinalisedIffNoneMissing(u, msg, states, arrivals);
    }
    if u.hooks.Keys == {ON_EXIT} {
      Reachable(u, msg, states, arrivals, 0);
      assert arrivals[..0] == [];
      OnlyExit(u, msg, states[0]);
    }
  }

  /** With one other child, its return is taken for the hook's, and the session is finalised. */
  lemma LateReturnFinalises(u: Setup, msg: Message, r: Return)
    requires Sound(u) && u.hooks == map[ON_EXIT := INLINE] && u.others == 1 && r.from == Other
    ensures var s := Completed(u, Fresh(u, msg), msg);
            && s.atWork == {} && CanReturn(s, Other)
            && !HookReturn(u, s, r).stored && |HookReturn(u, s, r).finals| == 1
  {
    InlineDoesNotLaunch(u);
    assert !IsHook(u, StatusHook(Exported(u, msg)));
  }

  /** Two hooks are at work at once in some run. */
  ghost predicate CanOverlap(u: Setup, msg: Message) {
    exists states: seq<State>, arrivals: seq<Return>, k: nat ::
      IsRun(u, msg, states, arrivals) && k < |states| && |states[k].atWork| > 1
  }

  /**
   Two hooks can be at work at once if and only if there are two, both can be launched, and
   another child is outstanding whose return is taken for the first one's.
   */
  lemma OverlapIffLateReturn(u: Setup, msg: Message)
    requires Sound(u)
    ensures CanOverlap(u, msg) <==> |Due(u, msg)| == 2 && Broken(u, Due(u, msg)) == 0 && u.others > 0
  {
    hide Due, IsRun, Launches;
    if CanOverlap(u, msg) {
      var states: seq<State>, arrivals: seq<Return>, k: nat :|
        IsRun(u, msg, states, arrivals) && k < |states| && |states[k].atWork| > 1;
      OverlapNeeds(u, msg, states, arrivals, k);
    }
    if |Due(u, msg)| == 2 && Broken(u, Due(u, msg)) == 0 && u.others > 0 {
      LateReturnOverlaps(u, msg, msg);
    }
  }

  lemma OverlapNeeds(u: Setup, msg: Message, states: seq<State>, arrivals: seq<Return>, k: nat)
    requires Sound(u) && IsRun(u, msg, states, arrivals) && k < |states| && |states[k].atWork| > 1
    ensures |Due(u, msg)| == 2 && Broken(u, Due(u, msg)) == 0 && u.others > 0
  {
    hide Due, Completed, HookReturn, Launches, Carries, Elements;
    var s := states[k];
    Reachable(u, msg, states, arrivals, k);
    assert |arrivals[..k]| == k;
    ElementsSize(s.fired);
    SubsetSize(s.atWork, Elements(s.fired));
    BothFired(s.fired, Due(u, msg));
    BrokenIsNone(u, s.fired);
    InElements(s.fired);
  }

  lemma InElements(names: seq<string>)
    ensures forall i :: 0 <= i < |names| ==> names[i] in Elements(names)
  {
  }

  /** The return of another child, whatever it says, fires the second hook beside the first. */
  lemma LateReturnOverlaps(u: Setup, msg: Message, m: Message)
    requires Sound(u) && |Due(u, msg)| == 2 && Broken(u, Due(u, msg)) == 0 && u.others > 0
    ensures var s := Completed(u, Fresh(u, msg), msg);
            && CanReturn(s, Other)
            && HookReturn(u, s, Return(Other, m)).atWork == {Due(u, msg)[0], ON_EXIT}
    ensures CanOverlap(u, msg)
  {
    hide Due, Completed, HookReturn, Launches, Balance, Carries;
    var s, r := Completed(u, Fresh(u, msg), msg), Return(Other, m);
    BrokenIsNone(u, Due(u, msg));
    FirstAtWork(u, msg);
    ReturnProgress(u, msg, s, 0, r);
    var s' := HookReturn(u, s, r);
    assert s'.atWork == {Due(u, msg)[0], Due(u, msg)[1]};
    var states := [s, s'];
    assert IsRun(u, msg, states, [r]) && |states[1].atWork| == 2;
  }

  lemma BothFired(fired: seq<string>, due: seq<string>)
    requires fired <= due && |fired| > 1 && |due| <= 2
    ensures fired == due
  {
  }

  lemma FirstAtWork(u: Setup, msg: Message)
    requires |Due(u, msg)| == 2 && Launches(u, Due(u, msg)[0]) && u.others > 0
    ensures var s := Completed(u, Fresh(u, msg), msg);
            && s.atWork == {Due(u, msg)[0]} && CanReturn(s, Other) && Inv(u, msg, s, [])
    ensures Due(u, msg)[0] != Due(u, msg)[1]
  {
    FirstCall(u, msg);
  }

  lemma InlineDoesNotLaunch(u: Setup)
    requires ON_EXIT in u.hooks && u.hooks[ON_EXIT] == INLINE
    ensures !Launches(u, ON_EXIT)
  {
    assert "call_workflow" in INLINE.fields;
  }

  lemma ExitIsDue(u: Setup, msg: Message)
    requires IsHook(u, ON_EXIT)
    ensures Due(u, msg) != [] && Due(u, msg)[|Due(u, msg)| - 1] == ON_EXIT
  {
  }

  lemma OnlyExit(u: Setup, msg: Message, s: State)
    requires Progress(u, msg, s, 0) && Balance(u, s, 0) && u.others == 0
    requires u.hooks.Keys == {ON_EXIT} && !Launches(u, ON_EXIT)
    ensures Over(s)
  {
    assert forall i :: 0 <= i < |Due(u, msg)| ==> Due(u, msg)[i] in u.hooks;
    assert s.fired == [] || s.fired == [ON_EXIT];
    assert Broken(u, [ON_EXIT][..0]) == 0;
    assert |s.atWork| == 0 && s.others == 0;
  }

  // ------------------------------------------------------------------
  // The program's session
  // ------------------------------------------------------------------

  class Session {
    const setup: Setup
    var currentHook: string
    var saved: Message
    var stored: bool
    var fired: seq<string>
    var exports: nat
    var finals: seq<Message>
    var overlap: bool
    /** What has not returned: the session does not keep count. */
    ghost var atWork: set<string>
    ghost var others: nat
    var started: seq<Child>
    /** The message the session completes with, and what has returned since. */
    ghost var first: Message
    ghost var arrivals: seq<Return>

    ghost predicate Underway()
      reads this
    {
      Inv(setup, first, View(), arrivals)
    }

    ghost function View(): State
      reads this
    {
      State(currentHook, saved, atWork, others, stored, fired, exports, finals, overlap, started)
    }

    constructor (u: Setup, msg: Message)
      ensures setup == u && View() == Fresh(u, msg)
    {
      setup := u;
      currentHook, saved, stored := "", msg, true;
      fired, exports, finals, overlap, started := [], 0, [], false, [];
      atWork, others, first, arrivals := {}, u.others, msg, [];
    }

    /** The workflow for a hook's block, or nothing where building it panics. */
    method ExecuteHook(block: Value) returns (child: Option<Child>)
      ensures child == ChildOf(block)
      ensures block.Str? ==> child == Some(Single(block.s))
      ensures block.List? && (forall i :: 0 <= i < |block.items| ==> block.items[i].Str?) ==>
                && child.Some? && child.value.Threads? && |child.value.names| == |block.items|
                && forall i :: 0 <= i < |block.items| ==> block.items[i] == Str(child.value.names[i])
      ensures child.Some? ==> StandsFor(child.value, block)
    {
      if block.Str? {
        return Some(Single(block.s));
      }
      if block.Map? && block.fields == map[] {
        return Some(Threads([]));
      }
      if !block.List? {
        return None;
      }
      var threads := [];
      var i := 0;
      while i < |block.items|
        invariant 0 <= i <= |block.items| && Names(block.items[..i]) == Some(threads)
      {
        if !block.items[i].Str? {
          return None;
        }
        assert block.items[..i + 1][..i] == block.items[..i];
        threads := threads + [block.items[i].s];
        i := i + 1;
      }
      assert block.items[..i] == block.items;
      return Some(Threads(threads));
    }

    method FireHook(name: string, msg: Message)
      modifies this`currentHook, this`saved, this`fired, this`atWork, this`overlap, this`started
      ensures View() == HookFired(setup, old(View()), name, msg)
      ensures old(currentHook) == "" && Launches(setup, name) ==>
                |started| == |old(started)| + 1 && StandsFor(started[|started| - 1], setup.hooks[name])
    {
      if currentHook != "" {
        if currentHook == name {
          currentHook := "";
        } else {
          overlap := true;
        }
        return;
      }
      if name in setup.hooks && setup.hooks[name] != Nil {
        currentHook := name;
        saved := msg;
        fired := fired + [name];
        var child := ExecuteHook(setup.hooks[name]);
        if child.Some? && setup.prepares(child.value) {
          atWork := atWork + {name};
          started := started + [child.value];
        }
      }
    }

    method FireCompleteHooks(msg: Message)
      modifies this`currentHook, this`saved, this`fired, this`atWork, this`overlap, this`started
      ensures View() == CompleteHooksFired(setup, old(View()), msg)
    {
      if currentHook == "" {
        var hookName := ON_SUCCESS;
        if msg.Status() == ERROR {
          hookName := ON_ERROR;
        } else if msg.Status() == FAILURE {
          hookName := ON_FAILURE;
        }
        FireHook(hookName, msg);
      } else if currentHook != ON_EXIT {
        FireHook(currentHook, msg);
      }
      if currentHook == "" || currentHook == ON_EXIT {
        FireHook(ON_EXIT, msg);
      }
    }

    method Complete(msg: Message)
      modifies this`currentHook, this`saved, this`fired, this`atWork, this`overlap, this`started,
               this`stored, this`exports, this`finals
      ensures View() == Completed(setup, old(View()), msg)
      ensures old(View()) == Fresh(setup, msg) && first == msg && arrivals == [] ==> Underway()
    {
      hide CompleteHooksFired, Inv;
      FirstCall(setup, msg);
      var m := msg;
      if m.Status() == SUCCESS && setup.iterationOut.Some? {
        m := setup.iterationOut.value;
      }
      saved := m;
      if stored {
        if currentHook == "" {
          m := setup.export_(m);
          saved := m;
          exports := exports + 1;
        }
        FireCompleteHooks(m);
        if currentHook != "" {
          return;
        }
        stored := false;
        finals := finals + [m];
      }
    }

    /**
     A return reaches the session, from the hook or from whoever else is outstanding: the session
     comes closer to its end, with the hooks fired in order, its exports done once, and an error
     as its message once a return was no success.
     */
    method ContinueAfterHook(msg: Message, ghost from: Sender)
      requires Sound(setup) && Underway() && CanReturn(View(), from)
      modifies this
      ensures Underway() && first == old(first) && arrivals == old(arrivals) + [Return(from, msg)]
      ensures 0 <= Phase(setup, first, View()) < old(Phase(setup, first, View()))
      ensures fired <= Due(setup, first) && exports == 1 && !overlap
      ensures |finals| == if stored then 0 else 1
      ensures !stored ==> fired == Due(setup, first)
                          && if AllSuccess(arrivals) then finals == [Exported(setup, first)]
                             else finals[0].Status() == ERROR
    {
      hide Completed, Outstanding, Inv, Phase, AllSuccess, Exported, Due, Gone;
      ghost var s := View();
      GoneIs(s, from);
      atWork, others := Gone(s, from).atWork, Gone(s, from).others;
      if msg.Status() == SUCCESS {
        Complete(saved);
      } else {
        Complete(ErrorMessage("hook " + currentHook + " failed"));
      }
      assert View() == HookReturn(setup, s, Return(from, msg));
      HookReturns(setup, first, s, arrivals, Return(from, msg));
      arrivals := arrivals + [Return(from, msg)];
    }
  }
}
