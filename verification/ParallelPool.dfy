/**
 Parallel iteration with a bounded pool: a session launches the first items of its list, and
 each return may launch one more. Returns come in any order.
 */
module ParallelPool {
  import opened Values
  import opened Lists

  /** The list's length, and the pool size if one is given. */
  datatype Config = Config(length: nat, pool: Option<int>)

  datatype State = State(
    launched: seq<nat>,
    inFlight: set<nat>,
    iteration: nat,
    iterationOut: Option<Message>,
    final: Option<Message>)

  /** A session only iterates over a list that is not empty; a pool must be positive. */
  predicate Valid(c: Config) {
    c.length > 0 && (c.pool.Some? ==> c.pool.value > 0)
  }

  /** How many items may be in flight at once. */
  function Slots(c: Config): nat
    requires Valid(c)
  {
    if c.pool.Some? then c.pool.value else c.length
  }

  function Min(a: int, b: int): int {
    if a <= b then a else b
  }

  /** The first `n` items. */
  function UpTo(n: nat): (s: seq<nat>)
    ensures |s| == n && forall i :: 0 <= i < n ==> s[i] == i
  {
    seq(n, i => i)
  }

  lemma OneMore(n: nat)
    ensures UpTo(n + 1) == UpTo(n) + [n]
    ensures Below(n + 1) == Below(n) + {n}
  {
  }

  function Start(c: Config): State
    requires Valid(c)
  {
    var n := Min(c.length, Slots(c));
    State(UpTo(n), Below(n), 0, None, None)
  }

  /** Item `i` returns with a message. */
  function Return(c: Config, s: State, i: nat, msg: Message): State
    requires Valid(c)
  {
    var s1 := s.(inFlight := s.inFlight - {i},
                 iterationOut := if s.iterationOut.None? && msg.Status() != SUCCESS then Some(msg) else s.iterationOut);
    if s.iteration < c.length - 1 then
      var next := if c.pool.Some? then c.pool.value + s.iteration else c.length;
      var s2 := if next < c.length then s1.(launched := s1.launched + [next], inFlight := s1.inFlight + {next}) else s1;
      s2.(iteration := s.iteration + 1)
    else
      s1.(final := Some(if msg.Status() == SUCCESS && s1.iterationOut.Some? then s1.iterationOut.value else msg))
  }

  datatype Event = Event(item: nat, msg: Message)

  /** Any order of returns of items that are in flight, as long as the session has not completed. */
  ghost predicate IsRun(c: Config, states: seq<State>, events: seq<Event>)
    requires Valid(c)
  {
    && |states| == |events| + 1
    && states[0] == Start(c)
    && (forall k :: 0 <= k < |events| ==>
          && events[k].item in states[k].inFlight
          && states[k].final.None?
          && states[k + 1] == Return(c, states[k], events[k].item, events[k].msg))
  }

  predicate SomeFailed(events: seq<Event>) {
    exists k :: 0 <= k < |events| && events[k].msg.Status() != SUCCESS
  }

  /** The first message that is not a success, if there is one. */
  function FirstFailure(events: seq<Event>): (m: Option<Message>)
    ensures m.None? <==> forall k :: 0 <= k < |events| ==> events[k].msg.Status() == SUCCESS
    ensures m.Some? ==> m.value.Status() != SUCCESS
  {
    if events == [] then None
    else
      var n := |events| - 1;
      var m := FirstFailure(events[..n]);
      if m.Some? then m
      else if events[n].msg.Status() != SUCCESS then Some(events[n].msg) else None
  }

  /** The last message, or the first failure if the last one hides it. */
  function Outcome(events: seq<Event>): Message
    requires events != []
  {
    var last := events[|events| - 1].msg;
    if last.Status() == SUCCESS && FirstFailure(events).Some? then FirstFailure(events).value else last
  }

  /** How many items have been launched once `k` have returned. */
  function Launched(c: Config, k: nat): nat
    requires Valid(c)
  {
    Min(c.length, Slots(c) + k)
  }

  /** After `k` returns: the launched items are a prefix of the list, all but `k` in flight. */
  ghost predicate Window(c: Config, s: State, k: nat)
    requires Valid(c)
  {
    && k <= c.length
    && s.launched == UpTo(Launched(c, k))
    && s.inFlight <= Below(|s.launched|)
    && |s.inFlight| == |s.launched| - k
    && s.iteration == Min(k, c.length - 1)
  }

  /** The messages seen so far decide the final one. */
  ghost predicate Verdict(c: Config, s: State, done: seq<Event>) {
    && s.iterationOut == FirstFailure(done)
    && (s.final.Some? <==> |done| == c.length)
    && (s.final.Some? ==> done != [] && s.final.value == Outcome(done))
  }

  ghost predicate Inv(c: Config, s: State, done: seq<Event>)
    requires Valid(c)
  {
    Window(c, s, |done|) && Verdict(c, s, done)
  }

  /** What a return does to the launched items and those in flight. */
  lemma ReturnIs(c: Config, s: State, k: nat, e: Event)
    requires Valid(c) && s.iteration == Min(k, c.length - 1) && k < c.length
    ensures var s', next := Return(c, s, e.item, e.msg), Slots(c) + k;
            && s'.iteration == Min(k + 1, c.length - 1)
            && (if next < c.length then
                  s'.launched == s.launched + [next] && s'.inFlight == s.inFlight - {e.item} + {next}
                else s'.launched == s.launched && s'.inFlight == s.inFlight - {e.item})
  {
  }

  lemma ReturnKeepsWindow(c: Config, s: State, k: nat, e: Event)
    requires Valid(c) && Window(c, s, k) && k < c.length && e.item in s.inFlight
    ensures Window(c, Return(c, s, e.item, e.msg), k + 1)
  {
    hide UpTo, Below, Return;
    ReturnIs(c, s, k, e);
    if Slots(c) + k < c.length {
      OneMore(|s.launched|);
      Replaced(s.inFlight, e.item, |s.launched|);
    }
  }

  /** One item comes back and the next one goes out. */
  lemma Replaced(inFlight: set<nat>, item: nat, n: nat)
    requires inFlight <= Below(n) && item in inFlight
    ensures inFlight - {item} + {n} <= Below(n + 1) && |inFlight - {item} + {n}| == |inFlight|
  {
    assert n !in inFlight;
  }

  lemma ReturnKeepsVerdict(c: Config, s: State, done: seq<Event>, e: Event)
    requires Valid(c) && Verdict(c, s, done) && |done| < c.length && s.iteration == Min(|done|, c.length - 1)
    ensures Verdict(c, Return(c, s, e.item, e.msg), done + [e])
  {
    hide FirstFailure;
    FirstFailureSnoc(done, e);
  }

  lemma FirstFailureSnoc(done: seq<Event>, e: Event)
    ensures FirstFailure(done + [e]) == if FirstFailure(done).Some? then FirstFailure(done)
                                        else if e.msg.Status() != SUCCESS then Some(e.msg) else None
  {
    assert (done + [e])[..|done|] == done;
  }

  lemma NotDone(c: Config, s: State, done: seq<Event>)
    requires Valid(c) && Inv(c, s, done) && s.final.None?
    ensures |done| < c.length && s.iteration == Min(|done|, c.length - 1)
  {
  }

  /** The items of the longer list that the shorter one does not have. */
  function Added(before: seq<nat>, after: seq<nat>): set<nat> {
    set i | i in after && i !in before
  }

  /** One more return: what is launched, what is in flight, and when and how the session ends. */
  lemma OneReturns(c: Config, s: State, done: seq<Event>, e: Event)
    requires Valid(c) && Inv(c, s, done) && s.final.None? && e.item in s.inFlight
    ensures var s', done' := Return(c, s, e.item, e.msg), done + [e];
            && Inv(c, s', done')
            && s'.launched == UpTo(Min(c.length, Slots(c) + |done'|))
            && s'.inFlight == s.inFlight - {e.item} + Added(s.launched, s'.launched)
            && |s'.inFlight| <= Slots(c) && (s'.final.None? ==> s'.inFlight != {})
            && (s'.final.Some? <==> |done'| == c.length)
            && (s'.final.Some? ==>
                  (s'.final.value.Status() != SUCCESS <==> SomeFailed(done')))
  {
    hide Return, Window, Verdict, UpTo;
    NotDone(c, s, done);
    ReturnKeepsWindow(c, s, |done|, e);
    ReturnKeepsVerdict(c, s, done, e);
    InvMeans(c, Return(c, s, e.item, e.msg), done + [e]);
    Newcomer(c, s, |done|, e);
  }

  lemma InvMeans(c: Config, s: State, done: seq<Event>)
    requires Valid(c) && Inv(c, s, done)
    ensures s.launched == UpTo(Min(c.length, Slots(c) + |done|))
    ensures |s.inFlight| <= Slots(c) && (s.final.None? ==> s.inFlight != {})
    ensures s.final.Some? <==> |done| == c.length
    ensures s.final.Some? ==>
              (s.final.value.Status() != SUCCESS <==> SomeFailed(done))
  {
    hide UpTo;
  }

  lemma Newcomer(c: Config, s: State, k: nat, e: Event)
    requires Valid(c) && Window(c, s, k) && k < c.length
    ensures var s' := Return(c, s, e.item, e.msg);
            s'.inFlight == s.inFlight - {e.item} + Added(s.launched, s'.launched)
  {
    hide UpTo, Return;
    ReturnIs(c, s, k, e);
    var s', next := Return(c, s, e.item, e.msg), Slots(c) + k;
    assert Added(s.launched, s'.launched) == if next < c.length then {next} else {};
  }

  lemma StartIsOk(c: Config)
    requires Valid(c)
    ensures Inv(c, Start(c), [])
  {
  }

  lemma {:induction false} Reachable(c: Config, states: seq<State>, events: seq<Event>, k: nat)
    requires Valid(c) && IsRun(c, states, events) && k < |states|
    ensures Inv(c, states[k], events[..k])
    decreases k
  {
    hide Window, Verdict, Return, Start;
    if k == 0 {
      StartIsOk(c);
      assert events[..0] == [];
    } else {
      Reachable(c, states, events, k - 1);
      NotDone(c, states[k - 1], events[..k - 1]);
      ReturnKeepsWindow(c, states[k - 1], k - 1, events[k - 1]);
      ReturnKeepsVerdict(c, states[k - 1], events[..k - 1], events[k - 1]);
      assert events[..k] == events[..k - 1] + [events[k - 1]];
    }
  }

  /**
   Whatever the order of returns: items are launched in list order, each once, never more than
   the pool at a time, and somebody is in flight until the session completes.
   */
  lemma PoolIsKept(c: Config, states: seq<State>, events: seq<Event>, k: nat)
    requires Valid(c) && IsRun(c, states, events) && k < |states|
    ensures states[k].launched == UpTo(|states[k].launched|) && |states[k].launched| <= c.length
    ensures |states[k].inFlight| <= Slots(c)
    ensures states[k].final.None? ==> states[k].inFlight != {}
  {
    Reachable(c, states, events, k);
  }

  /** The session completes exactly on the last return, when all items were launched and are back. */
  lemma CompletesOnLast(c: Config, states: seq<State>, events: seq<Event>, k: nat)
    requires Valid(c) && IsRun(c, states, events) && k < |states|
    ensures states[k].final.Some? <==> k == c.length
    ensures k == c.length ==> states[k].launched == UpTo(c.length) && states[k].inFlight == {}
  {
    Reachable(c, states, events, k);
    assert |events[..k]| == k;
  }

  /** It completes with a message that is not a success exactly when some item did. */
  lemma FailsIffSomeItemFails(c: Config, states: seq<State>, events: seq<Event>)
    requires Valid(c) && IsRun(c, states, events) && |events| == c.length
    ensures var final := states[|events|].final;
            && final.Some?
            && (final.value.Status() != SUCCESS <==> SomeFailed(events))
  {
    Reachable(c, states, events, |events|);
    assert events[..|events|] == events;
  }

  /** The first return that was no success, by position. */
  predicate FailsFirst(events: seq<Event>, k: int) {
    && 0 <= k < |events| && events[k].msg.Status() != "success"
    && forall j :: 0 <= j < k ==> events[j].msg.Status() == "success"
  }

  lemma {:induction false} FirstFailureIs(events: seq<Event>, k: int)
    requires FailsFirst(events, k)
    ensures FirstFailure(events) == Some(events[k].msg)
    decreases |events|
  {
    var n := |events| - 1;
    if k < n {
      assert FailsFirst(events[..n], k);
      FirstFailureIs(events[..n], k);
    }
  }

  /**
   The message it completes with: that of the last return, unless that is a success and some
   return before it was none; then that of the first such return.
   */
  lemma FinalMessageIs(c: Config, states: seq<State>, events: seq<Event>)
    requires Valid(c) && IsRun(c, states, events) && |events| == c.length
    ensures var last := events[|events| - 1].msg;
            var final := states[|events|].final;
            && final.Some?
            && (last.Status() != "success" || !SomeFailed(events) ==> final.value == last)
            && (forall k :: last.Status() == "success" && FailsFirst(events, k) ==> final.value == events[k].msg)
  {
    Reachable(c, states, events, |events|);
    assert events[..|events|] == events;
    forall k | FailsFirst(events, k)
      ensures FirstFailure(events) == Some(events[k].msg)
    {
      FirstFailureIs(events, k);
    }
  }

  // ------------------------------------------------------------------
  // The program's session
  // ------------------------------------------------------------------

  class Iteration {
    const config: Config
    var launched: seq<nat>
    var inFlight: set<nat>
    var iteration: nat
    var iterationOut: Option<Message>
    var final: Option<Message>
    /** The returns so far. */
    ghost var done: seq<Event>

    ghost predicate Underway()
      reads this
    {
      Valid(config) && Inv(config, View(), done)
    }

    ghost function View(): State
      reads this
    {
      State(launched, inFlight, iteration, iterationOut, final)
    }

    constructor (c: Config)
      ensures config == c && View() == State([], {}, 0, None, None) && done == []
    {
      config, done := c, [];
      launched, inFlight, iteration, iterationOut, final := [], {}, 0, None, None;
    }

    /** Launches the first items; a pool that is not positive is an error. */
    method LaunchParallelIterations() returns (ok: bool)
      requires config.length > 0 && View() == State([], {}, 0, None, None) && done == []
      modifies this
      ensures ok <==> Valid(config)
      ensures ok ==> View() == Start(config) && Underway() && done == []
      ensures !ok ==> View() == old(View())
    {
      var poolCount := config.length;
      if config.pool.Some? {
        poolCount := Min(config.length, config.pool.value);
        if poolCount <= 0 {
          return false;
        }
      }
      var i := 0;
      while i < poolCount
        invariant 0 <= i <= poolCount
        invariant launched == UpTo(i) && inFlight == Below(i)
        invariant iteration == 0 && iterationOut.None? && final.None? && done == []
      {
        hide UpTo, Below;
        OneMore(i);
        launched := launched + [i];
        inFlight := inFlight + {i};
        i := i + 1;
      }
      StartIsOk(config);
      return true;
    }

    /**
     Any item that is in flight returns: as many items as the returns make room for have been
     launched, in order, and the last return completes the session, as a failure if there was one.
     */
    method ContinueExec(item: nat, msg: Message)
      requires Underway() && item in inFlight && final.None?
      modifies this
      ensures Underway() && done == old(done) + [Event(item, msg)]
      ensures launched == UpTo(Min(config.length, Slots(config) + |done|))
      ensures inFlight == old(inFlight) - {item} + Added(old(launched), launched)
      ensures |inFlight| <= Slots(config) && (final.None? ==> inFlight != {})
      ensures final.Some? <==> |done| == config.length
      ensures final.Some? ==>
                (final.value.Status() != SUCCESS <==> SomeFailed(done))
    {
      hide Inv, UpTo, Min, Slots, Added, SomeFailed, Return;
      OneReturns(config, View(), done, Event(item, msg));
      Advance(item, msg);
      done := done + [Event(item, msg)];
    }

    method Advance(item: nat, msg: Message)
      requires Valid(config)
      modifies `launched, `inFlight, `iteration, `iterationOut, `final
      ensures View() == Return(config, old(View()), item, msg)
    {
      inFlight := inFlight - {item};
      if iterationOut.None? && msg.Status() != SUCCESS {
        iterationOut := Some(msg);
      }
      if iteration < config.length - 1 {
        if config.pool.Some? {
          var i := config.pool.value + iteration;
          if i < config.length {
            launched := launched + [i];
            inFlight := inFlight + {i};
          }
        }
        iteration := iteration + 1;
      } else if msg.Status() == SUCCESS && iterationOut.Some? {
        final := iterationOut;
      } else {
        final := Some(msg);
      }
    }
  }
}
