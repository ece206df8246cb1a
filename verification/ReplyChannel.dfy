/**
 One attempt at a command. The handler replies on a channel that holds one message; a goroutine
 takes the reply that counts, or gives up when the timer fires, and then closes the channel. The
 two run side by side.
 */
module ReplyChannel {
  import opened Values

  /** What the handler sends, and the panic it ends with, if it does. */
  datatype Script = Script(sends: seq<Message>, panics: Option<string>)

  function PanicMessage(reason: string): Message {
    Message(map["error" := reason], Nil)
  }

  /** All that goes into the channel if it stays open. */
  function Full(c: Script): seq<Message> {
    c.sends + (if c.panics.Some? then [PanicMessage(c.panics.value)] else [])
  }

  /** A reply may announce that the real one will take long. */
  predicate Announces(m: Message) {
    "no-timeout" in m.labels
  }

  /** How an attempt ends; `Silent` is the goroutine that waits for ever. */
  datatype Outcome = Timeout | Reply(msg: Message) | Silent

  datatype Taker = Selecting | Awaiting | Decided | Closed | Cleared

  /**
   A panic is recovered from: the handler tests whether the channel variable was cleared, reads
   it, and sends. A panic while sending escapes, and sending on a variable that was cleared after
   the test hangs.
   */
  datatype Handler =
    | Running
    | Recovering(reason: string)
    | Rethrowing(reason: string)
    | Resending(reason: string)
    | Ended
    | Escaped
    | Hung

  datatype State = State(
    queue: seq<Message>,
    sent: nat,
    taker: Taker,
    handler: Handler,
    received: seq<Message>,
    decisions: seq<Outcome>)
  {
    predicate Open() {
      !taker.Closed? && !taker.Cleared?
    }

    /** How many messages have gone into the channel. */
    function Pushed(): nat {
      |received| + |queue|
    }
  }

  const INIT := State([], 0, Selecting, Running, [], [])

  /** What either side may do; a send waits while the channel is full. */
  datatype Event = Send | Finish | Recover | Read | Resend | Take | Tick | Close | Clear

  predicate Enabled(c: Script, s: State, e: Event) {
    match e
    case Send => s.handler.Running? && s.sent < |c.sends| && (s.Open() ==> s.queue == [])
    case Finish => s.handler.Running? && s.sent == |c.sends|
    case Recover => s.handler.Recovering?
    case Read => s.handler.Rethrowing?
    case Resend => s.handler.Resending? && (s.Open() ==> s.queue == [])
    case Take => (s.taker.Selecting? || s.taker.Awaiting?) && s.queue != []
    case Tick => s.taker.Selecting?
    case Close => s.taker.Decided?
    case Clear => s.taker.Closed?
  }

  function Next(c: Script, s: State, e: Event): State
    requires Enabled(c, s, e)
  {
    match e
    case Send =>
      if s.Open() then s.(queue := [c.sends[s.sent]], sent := s.sent + 1)
      else s.(handler := Recovering("send on closed channel"))
    case Finish => s.(handler := if c.panics.Some? then Recovering(c.panics.value) else Ended)
    case Recover => s.(handler := if s.taker.Cleared? then Ended else Rethrowing(s.handler.reason))
    case Read => s.(handler := if s.taker.Cleared? then Hung else Resending(s.handler.reason))
    case Resend =>
      if s.Open() then s.(queue := [PanicMessage(s.handler.reason)], handler := Ended)
      else s.(handler := Escaped)
    case Take =>
      var m := s.queue[0];
      var s1 := s.(queue := s.queue[1..], received := s.received + [m]);
      if s.taker.Selecting? && Announces(m) then s1.(taker := Awaiting)
      else s1.(taker := Decided, decisions := s.decisions + [Reply(m)])
    case Tick => s.(taker := Decided, decisions := s.decisions + [Timeout])
    case Close => s.(taker := Closed)
    case Clear => s.(taker := Cleared)
  }

  /** Any interleaving of the two sides. */
  ghost predicate IsRun(c: Script, states: seq<State>, events: seq<Event>) {
    && |states| == |events| + 1
    && states[0] == INIT
    && (forall k :: 0 <= k < |events| ==>
          Enabled(c, states[k], events[k]) && states[k + 1] == Next(c, states[k], events[k]))
  }

  /** Neither side can do anything more. */
  ghost predicate Over(c: Script, s: State) {
    forall e :: !Enabled(c, s, e)
  }

  // ------------------------------------------------------------------
  // What every step keeps
  // ------------------------------------------------------------------

  ghost predicate HandlerOk(c: Script, s: State) {
    match s.handler
    case Running => s.Pushed() == s.sent
    case Ended => s.Open() ==> s.Pushed() == |Full(c)|
    case Escaped => Full(c) != [] && !s.Open()
    case Hung => Full(c) != [] && s.taker.Cleared?
    case _ => Full(c) != [] && (s.Open() ==> c.panics == Some(s.handler.reason) && s.Pushed() == |c.sends|)
  }

  ghost predicate TakerOk(s: State) {
    match s.taker
    case Selecting => s.received == [] && s.decisions == []
    case Awaiting => |s.received| == 1 && Announces(s.received[0]) && s.decisions == []
    case _ =>
      || (s.decisions == [Timeout] && s.received == [])
      || (|s.received| == 1 && s.decisions == [Reply(s.received[0])] && !Announces(s.received[0]))
      || (|s.received| == 2 && s.decisions == [Reply(s.received[1])] && Announces(s.received[0]))
  }

  ghost predicate Inv(c: Script, s: State) {
    && |s.queue| <= 1 && s.sent <= |c.sends|
    && s.received + s.queue <= Full(c)
    && HandlerOk(c, s) && TakerOk(s)
  }

  lemma NextKeeps(c: Script, s: State, e: Event)
    requires Inv(c, s) && Enabled(c, s, e)
    ensures Inv(c, Next(c, s, e))
  {
    match e
    case Send => SendKeeps(c, s);
    case Resend => ResendKeeps(c, s);
    case Take => TakeKeeps(c, s);
    case Finish =>
    case Recover =>
    case Read =>
    case Tick =>
    case Close =>
    case Clear =>
  }

  lemma SendKeeps(c: Script, s: State)
    requires Inv(c, s) && Enabled(c, s, Send)
    ensures Inv(c, Next(c, s, Send))
  {
    if s.Open() {
      assert s.received + [c.sends[s.sent]] == Full(c)[..s.sent + 1];
    }
  }

  lemma ResendKeeps(c: Script, s: State)
    requires Inv(c, s) && Enabled(c, s, Resend)
    ensures Inv(c, Next(c, s, Resend))
  {
    if s.Open() {
      assert s.received + [PanicMessage(s.handler.reason)] == Full(c);
    }
  }

  lemma TakeKeeps(c: Script, s: State)
    requires Inv(c, s) && Enabled(c, s, Take)
    ensures Inv(c, Next(c, s, Take))
  {
    var s' := Next(c, s, Take);
    assert s'.queue == [];
    assert s'.received + s'.queue == s.received + s.queue;
  }

  lemma {:induction false} Reachable(c: Script, states: seq<State>, events: seq<Event>, k: nat)
    requires IsRun(c, states, events) && k < |states|
    ensures Inv(c, states[k])
    decreases k
  {
    hide Inv, Next, Enabled;
    if k == 0 {
      InitIsOk(c);
    } else {
      Reachable(c, states, events, k - 1);
      NextKeeps(c, states[k - 1], events[k - 1]);
    }
  }

  lemma InitIsOk(c: Script)
    ensures Inv(c, INIT)
  {
  }

  /** The steps both sides still have before them. */
  function Measure(c: Script, s: State): int {
    (match s.handler
     case Running => |c.sends| - s.sent + 4
     case Recovering(_) => 3
     case Rethrowing(_) => 2
     case Resending(_) => 1
     case _ => 0)
    + (match s.taker case Selecting => 4 case Awaiting => 3 case Decided => 2 case Closed => 1 case Cleared => 0)
  }

  lemma MeasureFalls(c: Script, s: State, e: Event)
    requires Inv(c, s) && Enabled(c, s, e)
    ensures 0 <= Measure(c, Next(c, s, e)) < Measure(c, s)
  {
  }

  // ------------------------------------------------------------------
  // Which reply counts
  // ------------------------------------------------------------------

  /** The reply that counts: the first, or the second if the first is an announcement. */
  function Counted(c: Script): Option<Message> {
    var all := Full(c);
    if |all| > 0 && !Announces(all[0]) then Some(all[0])
    else if |all| > 1 then Some(all[1])
    else None
  }

  /** An announcement that nothing follows. */
  predicate Lone(c: Script) {
    |Full(c)| == 1 && Announces(Full(c)[0])
  }

  predicate Possible(c: Script, o: Outcome) {
    match o
    case Timeout => true
    case Reply(m) => Counted(c) == Some(m)
    case Silent => Lone(c)
  }

  /** How the attempt ended, once it is over. */
  function Result(s: State): Outcome {
    if s.decisions == [] then Silent else s.decisions[0]
  }

  /** Whatever the interleaving: at most one decision, a timeout or the reply that counts. */
  lemma AtMostOneDecision(c: Script, states: seq<State>, events: seq<Event>, k: nat)
    requires IsRun(c, states, events) && k < |states|
    ensures |states[k].decisions| <= 1
    ensures states[k].decisions == [] || states[k].decisions == [Timeout]
            || exists m :: Counted(c) == Some(m) && states[k].decisions == [Reply(m)]
  {
    Reachable(c, states, events, k);
    DecisionCounts(c, states[k]);
  }

  lemma DecisionCounts(c: Script, s: State)
    requires Inv(c, s)
    ensures s.decisions == [] || s.decisions == [Timeout]
            || exists m :: Counted(c) == Some(m) && s.decisions == [Reply(m)]
  {
    if s.decisions != [] && s.decisions != [Timeout] {
      var r := s.received;
      assert r <= Full(c);
      assert Counted(c) == Some(r[|r| - 1]) && s.decisions == [Reply(r[|r| - 1])];
    }
  }

  /** When both sides are stuck without a decision, an announcement was taken and nothing follows. */
  lemma OverMeans(c: Script, s: State)
    requires Inv(c, s) && Over(c, s)
    ensures s.decisions == [] ==> Lone(c)
    ensures Possible(c, Result(s))
  {
    assert !Enabled(c, s, Tick) && !Enabled(c, s, Take) && !Enabled(c, s, Send)
           && !Enabled(c, s, Finish) && !Enabled(c, s, Recover) && !Enabled(c, s, Read) && !Enabled(c, s, Resend);
    DecisionCounts(c, s);
    if s.decisions == [] {
      assert s.taker.Awaiting? && s.queue == [] && s.handler.Ended?;
      assert s.received == Full(c);
    }
  }

  // ------------------------------------------------------------------
  // Runs that show what is possible
  // ------------------------------------------------------------------

  lemma Extend(c: Script, states: seq<State>, events: seq<Event>, e: Event)
    returns (states': seq<State>, events': seq<Event>)
    requires IsRun(c, states, events) && Enabled(c, states[|events|], e)
    ensures IsRun(c, states', events') && |events'| == |events| + 1
    ensures states'[|events'|] == Next(c, states[|events|], e)
  {
    states', events' := states + [Next(c, states[|events|], e)], events + [e];
  }

  lemma DecisionStays(c: Script, s: State, e: Event)
    requires Inv(c, s) && Enabled(c, s, e) && s.decisions != []
    ensures Next(c, s, e).decisions == s.decisions
  {
  }

  /** The handler gets its next message into an empty channel. */
  lemma PushNext(c: Script, states: seq<State>, events: seq<Event>)
    returns (states': seq<State>, events': seq<Event>)
    requires IsRun(c, states, events)
    requires var s := states[|events|]; s.Open() && s.queue == [] && s.handler.Running? && s.Pushed() < |Full(c)|
    ensures IsRun(c, states', events')
    ensures var s, s' := states[|events|], states'[|events'|];
            && s'.queue == [Full(c)[s.Pushed()]]
            && s'.taker == s.taker && s'.received == s.received && s'.decisions == s.decisions
            && (s.Pushed() < |c.sends| ==> s'.handler.Running?)
  {
    var s := states[|events|];
    Reachable(c, states, events, |events|);
    if s.sent < |c.sends| {
      states', events' := Extend(c, states, events, Send);
    } else {
      states', events' := Extend(c, states, events, Finish);
      states', events' := Extend(c, states', events', Recover);
      states', events' := Extend(c, states', events', Read);
      states', events' := Extend(c, states', events', Resend);
    }
  }

  lemma Begin(c: Script) returns (states: seq<State>, events: seq<Event>)
    ensures IsRun(c, states, events) && |events| == 0 && states[0] == INIT
  {
    states, events := [INIT], [];
  }

  lemma CanTimeOut(c: Script) returns (states: seq<State>, events: seq<Event>)
    ensures IsRun(c, states, events) && |events| == 1
    ensures states[1] == INIT.(taker := Decided, decisions := [Timeout])
  {
    states, events := Begin(c);
    states, events := Extend(c, states, events, Tick);
  }

  /** The first message is taken. */
  lemma CanTakeFirst(c: Script) returns (states: seq<State>, events: seq<Event>)
    requires Full(c) != []
    ensures IsRun(c, states, events)
    ensures var s, m := states[|events|], Full(c)[0];
            && s.received == [m] && s.queue == []
            && (if Announces(m) then s.taker.Awaiting? else s.decisions == [Reply(m)])
            && (0 < |c.sends| ==> s.handler.Running?)
  {
    states, events := Begin(c);
    states, events := PushNext(c, states, events);
    states, events := Extend(c, states, events, Take);
  }

  /** A panic is no announcement. */
  lemma AnnouncementIsSent(c: Script)
    requires Full(c) != [] && Announces(Full(c)[0])
    ensures 0 < |c.sends|
  {
  }

  lemma CanReply(c: Script, m: Message) returns (states: seq<State>, events: seq<Event>)
    requires Counted(c) == Some(m)
    ensures IsRun(c, states, events) && states[|events|].decisions == [Reply(m)]
  {
    states, events := CanTakeFirst(c);
    if Announces(Full(c)[0]) {
      AnnouncementIsSent(c);
      Reachable(c, states, events, |events|);
      states, events := PushNext(c, states, events);
      states, events := Extend(c, states, events, Take);
    }
  }

  // ------------------------------------------------------------------
  // The main results, over every interleaving
  // ------------------------------------------------------------------

  ghost predicate CanEndAs(c: Script, o: Outcome) {
    exists states, events :: IsRun(c, states, events) && Over(c, states[|events|]) && Result(states[|events|]) == o
  }

  /** What can come of an attempt, exactly: no message after the one that counts has a say. */
  lemma EndsAsPossible(c: Script, o: Outcome)
    ensures CanEndAs(c, o) <==> Possible(c, o)
  {
    hide Enabled, Next, Inv;
    if CanEndAs(c, o) {
      var states, events :| IsRun(c, states, events) && Over(c, states[|events|]) && Result(states[|events|]) == o;
      Reachable(c, states, events, |events|);
      OverMeans(c, states[|events|]);
    }
    if Possible(c, o) {
      PossibleHappens(c, o);
    }
  }

  lemma PossibleHappens(c: Script, o: Outcome)
    requires Possible(c, o)
    ensures CanEndAs(c, o)
  {
    hide Enabled, Next, Over;
    var states, events;
    match o {
      case Timeout => states, events := CanTimeOut(c);
      case Reply(m) => states, events := CanReply(c, m);
      case Silent => states, events := CanTakeFirst(c);
    }
    Reachable(c, states, events, |events|);
    var states', events' := CarryOn(c, states, events);
    assert Result(states'[|events'|]) == o;
  }

  /**
   Every run can be carried on until it is over. A decision stays what it is, and once a lone
   announcement was taken there is none any more.
   */
  lemma {:induction false} CarryOn(c: Script, states: seq<State>, events: seq<Event>)
    returns (states': seq<State>, events': seq<Event>)
    requires IsRun(c, states, events)
    ensures IsRun(c, states', events') && Over(c, states'[|events'|])
    ensures var d := states[|events|].decisions; d != [] ==> states'[|events'|].decisions == d
    ensures Lone(c) && states[|events|].taker.Awaiting? ==> states'[|events'|].decisions == []
    decreases Measure(c, states[|events|])
  {
    hide Inv, Next, Enabled, Measure;
    states', events' := states, events;
    var s := states[|events|];
    Reachable(c, states, events, |events|);
    AwaitingUndecided(c, s);
    if e :| Enabled(c, s, e) {
      if s.decisions != [] {
        DecisionStays(c, s, e);
      }
      if Lone(c) && s.taker.Awaiting? {
        AwaitingStays(c, s, e);
      }
      MeasureFalls(c, s, e);
      var t, f := Extend(c, states, events, e);
      states', events' := CarryOn(c, t, f);
    }
  }

  lemma AwaitingUndecided(c: Script, s: State)
    requires Inv(c, s)
    ensures s.taker.Awaiting? ==> s.decisions == []
  {
  }

  lemma AwaitingStays(c: Script, s: State, e: Event)
    requires Inv(c, s) && Lone(c) && s.taker.Awaiting? && Enabled(c, s, e)
    ensures Next(c, s, e).taker.Awaiting?
  {
    assert |s.received + s.queue| <= 1;
  }

  /** Every attempt comes to a decision, however it is interleaved, if and only if none is lone. */
  lemma AlwaysDecidesIffNotLone(c: Script)
    ensures (forall states: seq<State>, events: seq<Event> :: IsRun(c, states, events) && Over(c, states[|events|]) ==>
               |states[|events|].decisions| == 1)
            <==> !Lone(c)
  {
    hide Enabled, Next, Inv, Lone, Counted;
    if Lone(c) {
      PossibleHappens(c, Silent);
      var states, events :|
        IsRun(c, states, events) && Over(c, states[|events|]) && Result(states[|events|]) == Silent;
      AtMostOneDecision(c, states, events, |events|);
    } else {
      forall states: seq<State>, events: seq<Event> | IsRun(c, states, events) && Over(c, states[|events|])
        ensures |states[|events|].decisions| == 1
      {
        Reachable(c, states, events, |events|);
        OverMeans(c, states[|events|]);
        AtMostOneDecision(c, states, events, |events|);
      }
    }
  }

  /**
   The wrapper means to recover from every panic of a handler, but if the channel is closed and
   not yet cleared the panic escapes. Only a handler that sends nothing is safe.
   */
  lemma EscapesIffReplies(c: Script)
    ensures (exists states: seq<State>, events: seq<Event> ::
               IsRun(c, states, events) && states[|events|].handler.Escaped?)
            <==> Full(c) != []
  {
    if states: seq<State>, events: seq<Event> :| IsRun(c, states, events) && states[|events|].handler.Escaped? {
      Reachable(c, states, events, |events|);
    }
    if Full(c) != [] {
      var states, events := CanTimeOut(c);
      states, events := Extend(c, states, events, Close);
      states, events := Extend(c, states, events, if c.sends == [] then Finish else Send);
      states, events := Extend(c, states, events, Recover);
      states, events := Extend(c, states, events, Read);
      states, events := Extend(c, states, events, Resend);
    }
  }

  ghost predicate CanHang(c: Script) {
    exists states: seq<State>, events: seq<Event> ::
      IsRun(c, states, events) && Over(c, states[|events|]) && states[|events|].handler == Hung
  }

  /** Nor does the handler always return: the channel may be cleared between the test and the send. */
  lemma HangsIffReplies(c: Script)
    ensures CanHang(c) <==> Full(c) != []
  {
    hide Enabled, Next;
    if CanHang(c) {
      var states: seq<State>, events: seq<Event> :|
        IsRun(c, states, events) && Over(c, states[|events|]) && states[|events|].handler == Hung;
      Reachable(c, states, events, |events|);
    }
    if Full(c) != [] {
      var states, events := HangingRun(c);
      HungIsOver(c, states[|events|]);
    }
  }

  lemma HangingRun(c: Script) returns (states: seq<State>, events: seq<Event>)
    requires Full(c) != []
    ensures IsRun(c, states, events)
    ensures states[|events|].handler == Hung && states[|events|].taker == Cleared
  {
    states, events := CanTimeOut(c);
    states, events := Extend(c, states, events, Close);
    states, events := Extend(c, states, events, if c.sends == [] then Finish else Send);
    states, events := Extend(c, states, events, Recover);
    states, events := Extend(c, states, events, Clear);
    states, events := Extend(c, states, events, Read);
  }

  lemma HungIsOver(c: Script, s: State)
    requires s.handler == Hung && s.taker == Cleared
    ensures Over(c, s)
  {
  }

  /** No run goes on for ever. */
  lemma {:induction false} RunsAreShort(c: Script, states: seq<State>, events: seq<Event>, k: nat)
    requires IsRun(c, states, events) && k < |states|
    ensures 0 <= Measure(c, states[k]) <= |c.sends| + 8 - k
    decreases k
  {
    hide Inv, Next, Enabled;
    if k == 0 {
    } else {
      RunsAreShort(c, states, events, k - 1);
      Reachable(c, states, events, k - 1);
      MeasureFalls(c, states[k - 1], events[k - 1]);
    }
  }

  /** A handler that announces its reply and never sends it: no decision is ever made. */
  lemma SilentHandler(m: Message)
    requires "no-timeout" in m.labels
    ensures CanEndAs(Script([m], None), Silent)
  {
    assert Full(Script([m], None)) == [m];
    EndsAsPossible(Script([m], None), Silent);
  }
}
