/**
 Configuration staging: the services of a daemon move a configuration from stage to stage
 together. Each stage has a wait group; `ResetStage` starts over with a fresh locker and fresh
 wait groups, and releases whoever is still waiting on the old ones.

 The locker of an epoch is identified with the epoch's number. Services, wake-ups and resets
 interleave freely; a step is what one of them does while it holds the locker, or one
 operation on a wait group.
 */
module Staging {
  import opened Lists

  const STAGES: nat := 4

  // ------------------------------------------------------------------
  // Wait groups
  // ------------------------------------------------------------------

  /** The counter of a wait group; a decrement below zero panics but is not undone. */
  class WaitGroup {
    var counter: int

    constructor (n: nat)
      ensures counter == n
    {
      counter := n;
    }

    method Done() returns (ok: bool)
      modifies this
      ensures counter == old(counter) - 1
      ensures ok <==> 0 < old(counter)
    {
      counter := counter - 1;
      ok := 0 <= counter;
    }

    /** Decrements until a decrement panics. */
    method DoneAll()
      modifies this
      ensures counter == Drained(old(counter))
    {
      var ok := true;
      while ok
        invariant ok ==> counter == old(counter) || 0 <= counter <= old(counter)
        invariant !ok ==> counter == Drained(old(counter))
        decreases if !ok then 0 else if counter < 0 then 1 else counter + 2
      {
        ok := Done();
      }
    }
  }

  // ------------------------------------------------------------------
  // The protocol
  // ------------------------------------------------------------------

  /** One call of `AdvanceStage`: by a service, for a target stage, in an epoch. */
  datatype Call = Call(service: string, epoch: nat, target: nat)

  datatype Phase =
    | Skipped      // the stage was already reached
    | Refused      // the stage before was not reached
    | Arrived      // counted in, not yet waiting
    | Sleeping     // waiting for the others
    | Awake        // released, about to take the locker
    | Returned
    | Panicked
  {
    /** The call was counted in at the stage before its target. */
    predicate Counted() {
      !Skipped? && !Refused?
    }

    predicate Waiting() {
      Arrived? || Sleeping? || Awake?
    }
  }

  datatype State = State(
    services: set<string>,
    epoch: nat,
    locker: bool,
    stage: nat,
    groups: map<nat, seq<int>>,
    calls: map<Call, Phase>,
    transforms: seq<(nat, nat)>)

  datatype Event =
    | Arrive(service: string, target: nat)
    | Wait(call: Call)
    | Wake(call: Call, ok: bool)
    | Reset

  predicate Init(s: State) {
    && s.epoch == 0 && !s.locker && s.stage == 0
    && s.groups == map[] && s.calls == map[] && s.transforms == []
  }

  /** A service arrives at most once per stage and epoch; the other steps need someone to take them. */
  predicate Enabled(s: State, e: Event) {
    match e
    case Arrive(service, target) =>
      && s.locker && s.epoch in s.groups && |s.groups[s.epoch]| == STAGES
      && s.stage < STAGES && 1 <= target <= STAGES
      && service in s.services
      && Call(service, s.epoch, target) !in s.calls
    case Wait(c) => c in s.calls && s.calls[c].Arrived?
    case Wake(c, _) => c in s.calls && s.calls[c].Awake?
    case Reset => true
  }

  /** Everybody asleep on a wait group wakes up. */
  function Release(calls: map<Call, Phase>, epoch: nat, k: nat): map<Call, Phase> {
    map c | c in calls :: if c.epoch == epoch && c.target == k + 1 && calls[c].Sleeping? then Awake else calls[c]
  }

  function ReleaseEpoch(calls: map<Call, Phase>, epoch: nat): map<Call, Phase> {
    map c | c in calls :: if c.epoch == epoch && calls[c].Sleeping? then Awake else calls[c]
  }

  /** The counter of the wait group of stage `k` in an epoch. */
  function Group(s: State, epoch: nat, k: int): int {
    if epoch in s.groups && 0 <= k < |s.groups[epoch]| then s.groups[epoch][k] else 0
  }

  /** Decrementing until it panics, as `WaitGroup.DoneAll` does. */
  function Drained(n: int): int {
    if 0 <= n then -1 else n - 1
  }

  function AllDrained(groups: seq<int>): (r: seq<int>)
    ensures |r| == |groups| && forall k :: 0 <= k < |r| ==> r[k] == Drained(groups[k])
  {
    seq(|groups|, k requires 0 <= k < |groups| => Drained(groups[k]))
  }

  function DoArrive(s: State, c: Call): State
    requires Enabled(s, Arrive(c.service, c.target)) && c.epoch == s.epoch
  {
    if s.stage >= c.target then s.(calls := s.calls[c := Skipped])
    else if s.stage < c.target - 1 then s.(calls := s.calls[c := Refused])
    else
      var n := Group(s, s.epoch, s.stage) - 1;
      var s1 := s.(groups := s.groups[s.epoch := s.groups[s.epoch][s.stage := n]]);
      if n < 0 then s1.(calls := s.calls[c := Refused])
      else if n == 0 then s1.(calls := Release(s.calls, s.epoch, s.stage)[c := Arrived])
      else s1.(calls := s.calls[c := Arrived])
  }

  function DoWait(s: State, c: Call): State
    requires Enabled(s, Wait(c))
  {
    s.(calls := s.calls[c := if Group(s, c.epoch, c.target - 1) == 0 then Awake else Sleeping])
  }

  function DoWake(s: State, c: Call, ok: bool): State
    requires Enabled(s, Wake(c, ok))
  {
    if !s.locker || c.epoch != s.epoch then s.(calls := s.calls[c := Panicked])
    else if s.stage >= c.target then s.(calls := s.calls[c := Returned])
    else
      var s1 := s.(transforms := s.transforms + [(s.epoch, c.target)]);
      if ok then s1.(stage := c.target, calls := s.calls[c := Returned])
      else s1.(locker := false, calls := s.calls[c := Panicked])
  }

  /** The old wait groups end below zero, waking those asleep on them; new ones start full. */
  function DoReset(s: State): State {
    s.(epoch := s.epoch + 1,
       locker := true,
       stage := 0,
       groups := (if s.epoch in s.groups
                  then s.groups[s.epoch := AllDrained(s.groups[s.epoch])]
                  else s.groups)[s.epoch + 1 := seq(STAGES, k => |s.services|)],
       calls := ReleaseEpoch(s.calls, s.epoch))
  }

  function Next(s: State, e: Event): State
    requires Enabled(s, e)
  {
    match e
    case Arrive(service, target) => DoArrive(s, Call(service, s.epoch, target))
    case Wait(c) => DoWait(s, c)
    case Wake(c, ok) => DoWake(s, c, ok)
    case Reset => DoReset(s)
  }

  ghost predicate IsRun(states: seq<State>, events: seq<Event>) {
    && |states| == |events| + 1
    && Init(states[0])
    && (forall i :: 0 <= i < |events| ==> Enabled(states[i], events[i]) && states[i + 1] == Next(states[i], events[i]))
  }

  // ------------------------------------------------------------------
  // What every step keeps
  // ------------------------------------------------------------------

  /** The services counted in at stage `k` of an epoch. */
  function CountedIn(s: State, epoch: nat, k: nat): set<string> {
    set x | x in s.services && Call(x, epoch, k + 1) in s.calls && s.calls[Call(x, epoch, k + 1)].Counted()
  }

  ghost predicate CallOk(s: State, c: Call)
    requires c in s.calls
  {
    && c.service in s.services && 1 <= c.epoch <= s.epoch && 1 <= c.target <= STAGES
    && (c.epoch == s.epoch ==>
          && (s.calls[c].Counted() ==> c.target <= s.stage + 1)
          && (s.calls[c].Awake? ==> Group(s, s.epoch, c.target - 1) == 0)
          && (s.calls[c].Sleeping? ==> Group(s, s.epoch, c.target - 1) > 0))
  }

  ghost predicate CallsOk(s: State) {
    forall c :: c in s.calls ==> CallOk(s, c)
  }

  ghost predicate GroupsOk(s: State) {
    && (forall e :: e in s.groups <==> 1 <= e <= s.epoch)
    && (forall e :: e in s.groups ==> |s.groups[e]| == STAGES)
    && (forall e, k :: e in s.groups && 0 <= k < STAGES && e < s.epoch ==> s.groups[e][k] == -1)
    && (s.epoch > 0 ==>
          forall k :: 0 <= k < STAGES ==> s.groups[s.epoch][k] == |s.services| - |CountedIn(s, s.epoch, k)|)
  }

  ghost predicate StagesOk(s: State) {
    && s.stage <= STAGES
    && (s.locker ==> s.epoch > 0)
    && (s.epoch == 0 ==> s.stage == 0)
    && (forall k :: 0 <= k < s.stage ==> CountedIn(s, s.epoch, k) == s.services)
  }

  ghost predicate TransformsOk(s: State) {
    && (forall i :: 0 <= i < |s.transforms| ==>
          && s.transforms[i].0 <= s.epoch
          && (s.transforms[i].0 == s.epoch ==> s.transforms[i].1 <= s.stage + (if s.locker then 0 else 1)))
    && (forall i, j :: 0 <= i < j < |s.transforms| ==> s.transforms[i] != s.transforms[j])
  }

  ghost predicate Inv(s: State) {
    CallsOk(s) && GroupsOk(s) && StagesOk(s) && TransformsOk(s)
  }

  /** Who is counted in after an arrival. */
  lemma ArriveCounts(s: State, c: Call, k: nat)
    requires Enabled(s, Arrive(c.service, c.target)) && c.epoch == s.epoch
    ensures CountedIn(DoArrive(s, c), s.epoch, k)
            == CountedIn(s, s.epoch, k)
               + (if k == c.target - 1 && DoArrive(s, c).calls[c].Counted() then {c.service} else {})
    ensures c.service !in CountedIn(s, s.epoch, c.target - 1)
  {
  }

  /** Whoever arrives finds a place left in the wait group. */
  lemma PlaceLeft(s: State, c: Call)
    requires Inv(s) && Enabled(s, Arrive(c.service, c.target)) && c.epoch == s.epoch
    requires c.target == s.stage + 1
    ensures Group(s, s.epoch, s.stage) > 0
  {
    ArriveCounts(s, c, s.stage);
    CountsBounded(s, s.stage);
  }

  lemma ArriveKeepsGroups(s: State, c: Call)
    requires Inv(s) && Enabled(s, Arrive(c.service, c.target)) && c.epoch == s.epoch
    ensures GroupsOk(DoArrive(s, c))
  {
    hide CountedIn, Release, CallsOk, StagesOk, TransformsOk;
    var s' := DoArrive(s, c);
    if c.target == s.stage + 1 {
      PlaceLeft(s, c);
    }
    forall k: nat | k < STAGES
      ensures s'.groups[s.epoch][k] == |s.services| - |CountedIn(s', s.epoch, k)|
    {
      ArriveCounts(s, c, k);
      assert s.groups[s.epoch][k] == |s.services| - |CountedIn(s, s.epoch, k)|;
    }
  }

  lemma ArriveKeepsStages(s: State, c: Call)
    requires Inv(s) && Enabled(s, Arrive(c.service, c.target)) && c.epoch == s.epoch
    ensures StagesOk(DoArrive(s, c)) && TransformsOk(DoArrive(s, c))
  {
    hide CountedIn, Release, CallsOk, GroupsOk;
    forall k: nat | k < s.stage
      ensures CountedIn(DoArrive(s, c), s.epoch, k) == s.services
    {
      ArriveCounts(s, c, k);
    }
  }

  lemma ArriveKeepsCalls(s: State, c: Call)
    requires Inv(s) && Enabled(s, Arrive(c.service, c.target)) && c.epoch == s.epoch
    ensures CallsOk(DoArrive(s, c))
  {
    hide CountedIn;
    var s' := DoArrive(s, c);
    if c.target == s.stage + 1 {
      PlaceLeft(s, c);
    }
    forall d | d in s'.calls
      ensures CallOk(s', d)
    {
      if d != c {
        assert CallOk(s, d);
      }
    }
  }

  lemma CountUnchanged(s: State, s': State, k: nat)
    requires s'.services == s.services && s'.calls.Keys == s.calls.Keys
    requires forall c :: c in s.calls ==> (s.calls[c].Counted() <==> s'.calls[c].Counted())
    ensures CountedIn(s', s.epoch, k) == CountedIn(s, s.epoch, k)
  {
  }

  lemma WaitKeeps(s: State, c: Call)
    requires Inv(s) && Enabled(s, Wait(c))
    ensures Inv(DoWait(s, c))
  {
    hide CountedIn;
    var s' := DoWait(s, c);
    forall k: nat | k < STAGES
      ensures CountedIn(s', s.epoch, k) == CountedIn(s, s.epoch, k)
    {
      CountUnchanged(s, s', k);
    }
    assert CallOk(s, c);
    CountsBounded(s, c.target - 1);
    forall d | d in s'.calls
      ensures CallOk(s', d)
    {
      assert CallOk(s, d);
    }
  }

  lemma CountsBounded(s: State, k: nat)
    ensures |CountedIn(s, s.epoch, k)| <= |s.services|
    ensures |CountedIn(s, s.epoch, k)| == |s.services| ==> CountedIn(s, s.epoch, k) == s.services
  {
    SubsetSize(CountedIn(s, s.epoch, k), s.services);
  }

  /** Whoever wakes up in its own epoch finds that everybody was counted in. */
  lemma AwakeMeansAll(s: State, c: Call)
    requires Inv(s) && c in s.calls && s.calls[c].Awake? && c.epoch == s.epoch
    ensures CountedIn(s, s.epoch, c.target - 1) == s.services
    ensures c.target <= s.stage + 1 && c.target <= STAGES
  {
    assert CallOk(s, c);
    CountsBounded(s, c.target - 1);
  }

  lemma WakeKeepsCalls(s: State, c: Call, ok: bool)
    requires Inv(s) && Enabled(s, Wake(c, ok))
    ensures CallsOk(DoWake(s, c, ok)) && TransformsOk(DoWake(s, c, ok))
  {
    hide CountedIn, GroupsOk, StagesOk;
    var s' := DoWake(s, c, ok);
    assert CallOk(s, c);
    forall d | d in s'.calls
      ensures CallOk(s', d)
    {
      assert CallOk(s, d);
    }
  }

  lemma WakeKeepsGroups(s: State, c: Call, ok: bool)
    requires Inv(s) && Enabled(s, Wake(c, ok))
    ensures GroupsOk(DoWake(s, c, ok)) && StagesOk(DoWake(s, c, ok))
  {
    hide CountedIn, CallsOk, TransformsOk;
    var s' := DoWake(s, c, ok);
    if s.locker && c.epoch == s.epoch {
      AwakeMeansAll(s, c);
    }
    forall k: nat | k < STAGES
      ensures CountedIn(s', s.epoch, k) == CountedIn(s, s.epoch, k)
    {
      CountUnchanged(s, s', k);
    }
  }

  lemma ResetKeeps(s: State)
    requires Inv(s)
    ensures Inv(DoReset(s))
  {
    var s' := DoReset(s);
    forall k: nat | k < STAGES
      ensures CountedIn(s', s'.epoch, k) == {}
      ensures |CountedIn(s, s.epoch, k)| <= |s.services|
    {
      CountsBounded(s, k);
      assert forall c :: c in s'.calls ==> CallOk(s, c);
    }
    forall d | d in s'.calls
      ensures CallOk(s', d)
    {
      assert CallOk(s, d);
    }
  }

  lemma NextKeeps(s: State, e: Event)
    requires Inv(s) && Enabled(s, e)
    ensures Inv(Next(s, e))
  {
    match e
    case Arrive(service, target) =>
      ArriveKeepsCalls(s, Call(service, s.epoch, target));
      ArriveKeepsGroups(s, Call(service, s.epoch, target));
      ArriveKeepsStages(s, Call(service, s.epoch, target));
    case Wait(c) => WaitKeeps(s, c);
    case Wake(c, ok) =>
      WakeKeepsCalls(s, c, ok);
      WakeKeepsGroups(s, c, ok);
    case Reset => ResetKeeps(s);
  }

  lemma {:induction false} Reachable(states: seq<State>, events: seq<Event>, i: nat)
    requires IsRun(states, events) && i < |states|
    ensures Inv(states[i])
    decreases i
  {
    if i == 0 {
    } else {
      Reachable(states, events, i - 1);
      NextKeeps(states[i - 1], events[i - 1]);
    }
  }

  // ------------------------------------------------------------------
  // What has been achieved
  // ------------------------------------------------------------------

  /** What a call of the current epoch has come to, and what that says of the stage. */
  ghost predicate PhaseOk(s: State, c: Call)
    requires c in s.calls
  {
    c.epoch == s.epoch ==>
      && (s.calls[c].Returned? || s.calls[c].Skipped? ==> c.target <= s.stage)
      && (s.calls[c].Panicked? ==> !s.locker)
  }

  /** Every stage reached was transformed to; without a locker the transform to the next one failed. */
  ghost predicate Achieved(s: State) {
    && (forall c :: c in s.calls ==> PhaseOk(s, c))
    && (forall t :: 1 <= t <= s.stage ==> (s.epoch, t) in s.transforms)
    && (s.epoch > 0 && !s.locker ==> (s.epoch, s.stage + 1) in s.transforms)
  }

  lemma AchievedKeeps(s: State, e: Event)
    requires Inv(s) && Achieved(s) && Enabled(s, e)
    ensures Achieved(Next(s, e))
  {
    hide CountedIn, GroupsOk, TransformsOk;
    var s' := Next(s, e);
    if e.Wake? {
      assert CallOk(s, e.call);
    }
    if e.Reset? {
      assert forall c :: c in s'.calls ==> CallOk(s, c);
    }
    if e.Arrive? && e.target == s.stage + 1 {
      PlaceLeft(s, Call(e.service, s.epoch, e.target));
    }
    forall c | c in s'.calls
      ensures PhaseOk(s', c)
    {
      assert c in s.calls ==> PhaseOk(s, c);
    }
    forall t | 1 <= t <= s'.stage
      ensures (s'.epoch, t) in s'.transforms
    {
      assert t <= s.stage && !e.Reset? ==> (s.epoch, t) in s.transforms;
    }
  }

  lemma {:induction false} ReachableAchieved(states: seq<State>, events: seq<Event>, i: nat)
    requires IsRun(states, events) && i < |states|
    ensures Inv(states[i]) && Achieved(states[i])
    decreases i
  {
    hide Inv, Achieved, Next, Enabled;
    Reachable(states, events, i);
    if i == 0 {
      NothingAchieved(states[0]);
    } else {
      ReachableAchieved(states, events, i - 1);
      AchievedKeeps(states[i - 1], events[i - 1]);
    }
  }

  lemma NothingAchieved(s: State)
    requires Init(s)
    ensures Achieved(s)
  {
  }

  // ------------------------------------------------------------------
  // The main results, over every interleaving
  // ------------------------------------------------------------------

  /** A call returns, at once or after waiting, only with its stage reached; and it panics only after a failure. */
  lemma ReturnedIsReached(states: seq<State>, events: seq<Event>, i: nat, c: Call)
    requires IsRun(states, events) && i < |states|
    requires c in states[i].calls && c.epoch == states[i].epoch
    ensures states[i].calls[c].Returned? || states[i].calls[c].Skipped? ==> c.target <= states[i].stage
    ensures states[i].calls[c].Panicked? ==> !states[i].locker
  {
    hide Inv;
    ReachableAchieved(states, events, i);
    assert PhaseOk(states[i], c);
  }

  /** No stage is reached without its transform. */
  lemma StagesTransformed(states: seq<State>, events: seq<Event>, i: nat, t: nat)
    requires IsRun(states, events) && i < |states| && 1 <= t <= states[i].stage
    ensures (states[i].epoch, t) in states[i].transforms
  {
    hide Inv;
    ReachableAchieved(states, events, i);
  }

  /** What becomes of a service that arrives: there is always a place for it at its stage. */
  lemma ArriveMeans(states: seq<State>, events: seq<Event>, i: nat)
    requires IsRun(states, events) && i < |events| && events[i].Arrive?
    ensures var t, c := events[i].target, Call(events[i].service, states[i].epoch, events[i].target);
            && c in states[i + 1].calls
            && (states[i + 1].calls[c].Skipped? <==> t <= states[i].stage)
            && (states[i + 1].calls[c].Arrived? <==> t == states[i].stage + 1)
            && (states[i + 1].calls[c].Refused? <==> t > states[i].stage + 1)
  {
    hide CountedIn;
    Reachable(states, events, i);
    if events[i].target == states[i].stage + 1 {
      PlaceLeft(states[i], Call(events[i].service, states[i].epoch, events[i].target));
    }
  }

  /** The first to wake up for a stage that is not reached yet, in the epoch it waited in. */
  predicate Leads(s: State, e: Event) {
    e.Wake? && s.locker && e.call.epoch == s.epoch && s.stage < e.call.target
  }

  /**
   The stage rises exactly when the first to wake up has a transform that succeeds; the transform
   is to the next stage. If it fails, the locker is cleared.
   */
  lemma LeaderTransforms(states: seq<State>, events: seq<Event>, i: nat)
    requires IsRun(states, events) && i < |events|
    ensures var s, s' := states[i], states[i + 1];
            && (s'.stage > s.stage <==> Leads(s, events[i]) && events[i].ok)
            && (s'.transforms == if Leads(s, events[i]) then s.transforms + [(s.epoch, s.stage + 1)] else s.transforms)
            && (s.locker && !s'.locker <==> Leads(s, events[i]) && !events[i].ok)
            && (s.locker && s'.locker != s.locker ==> s'.calls[events[i].call].Panicked?)
  {
    hide CountedIn;
    Reachable(states, events, i);
    if events[i].Wake? {
      assert CallOk(states[i], events[i].call);
    }
  }

  /** Once a transform has failed nothing moves any more until the next reset. */
  lemma {:induction false} FailureStops(states: seq<State>, events: seq<Event>, i: nat, j: nat)
    requires IsRun(states, events) && i <= j < |states| && !states[i].locker
    requires forall k :: i <= k < j ==> !events[k].Reset?
    ensures !states[j].locker && states[j].stage == states[i].stage && states[j].transforms == states[i].transforms
    ensures j < |events| ==> !events[j].Arrive?
    decreases j - i
  {
    if i < j {
      FailureStops(states, events, i, j - 1);
    }
  }

  // --- the barrier can always be passed ---

  lemma Extend(states: seq<State>, events: seq<Event>, e: Event)
    returns (states': seq<State>, events': seq<Event>)
    requires IsRun(states, events) && Enabled(states[|events|], e)
    ensures IsRun(states', events') && events <= events' && |events'| == |events| + 1
    ensures states'[|events'|] == Next(states[|events|], e)
  {
    states', events' := states + [Next(states[|events|], e)], events + [e];
  }

  /** One of the calls that were counted in can take the next stage: nobody has, and nobody sleeps. */
  lemma SomeoneCanLead(states: seq<State>, events: seq<Event>, service: string)
    requires IsRun(states, events)
    requires var s := states[|events|];
             s.locker && service in s.services && CountedIn(s, s.epoch, s.stage) == s.services
    ensures var s := states[|events|];
            var c := Call(service, s.epoch, s.stage + 1);
            && c in s.calls
            && (s.calls[c].Awake? || (s.calls[c].Arrived? && Next(s, Wait(c)).calls[c].Awake?))
  {
    var s := states[|events|];
    var c := Call(service, s.epoch, s.stage + 1);
    assert service in CountedIn(s, s.epoch, s.stage);
    ReachableAchieved(states, events, |events|);
    assert PhaseOk(s, c);
    NobodyLeftBehind(states, events, |events|, c);
  }

  /** Once all services are counted in, the run can go on to the next stage. */
  lemma NextStageCanBeReached(states: seq<State>, events: seq<Event>)
    returns (states': seq<State>, events': seq<Event>)
    requires IsRun(states, events)
    requires var s := states[|events|];
             s.locker && s.services != {} && CountedIn(s, s.epoch, s.stage) == s.services
    ensures IsRun(states', events') && events <= events'
    ensures var s, s' := states[|events|], states'[|events'|];
            && s'.stage == s.stage + 1 && s'.epoch == s.epoch && s'.locker && s'.services == s.services
            && s'.transforms == s.transforms + [(s.epoch, s.stage + 1)]
            && s'.calls.Keys == s.calls.Keys
  {
    hide CountedIn, Inv;
    var s := states[|events|];
    var service :| service in s.services;
    var c := Call(service, s.epoch, s.stage + 1);
    SomeoneCanLead(states, events, service);
    states', events' := states, events;
    if s.calls[c].Arrived? {
      states', events' := Extend(states, events, Wait(c));
    }
    states', events' := Extend(states', events', Wake(c, true));
  }

  /** No service has asked for a stage beyond the next one. */
  ghost predicate NobodyAhead(s: State) {
    forall c :: c in s.calls && c.epoch == s.epoch ==> c.target <= s.stage + 1
  }

  /** Those that have not arrived yet arrive, one by one, and are counted in. */
  lemma {:induction false} AllCanArrive(states: seq<State>, events: seq<Event>, left: set<string>)
    returns (states': seq<State>, events': seq<Event>)
    requires IsRun(states, events)
    requires var s := states[|events|];
             && s.locker && s.stage < STAGES && NobodyAhead(s)
             && left == s.services - CountedIn(s, s.epoch, s.stage)
             && forall x :: x in left ==> Call(x, s.epoch, s.stage + 1) !in s.calls
    ensures IsRun(states', events') && events <= events'
    ensures var s, s' := states[|events|], states'[|events'|];
            && s'.stage == s.stage && s'.epoch == s.epoch && s'.locker && s'.services == s.services
            && s'.transforms == s.transforms && NobodyAhead(s')
            && CountedIn(s', s'.epoch, s'.stage) == s'.services
    decreases left
  {
    hide CountedIn, Inv, Next;
    states', events' := states, events;
    var s := states[|events|];
    CountedAreServices(s);
    assert s.services == left + CountedIn(s, s.epoch, s.stage);
    if left != {} {
      var x :| x in left;
      OneCanArrive(states, events, x);
      var t, f := Extend(states, events, Arrive(x, s.stage + 1));
      states', events' := AllCanArrive(t, f, left - {x});
    }
  }

  lemma CountedAreServices(s: State)
    ensures CountedIn(s, s.epoch, s.stage) <= s.services
  {
  }

  lemma OneCanArrive(states: seq<State>, events: seq<Event>, x: string)
    requires IsRun(states, events)
    requires var s := states[|events|];
             && s.locker && s.stage < STAGES && NobodyAhead(s) && x in s.services
             && Call(x, s.epoch, s.stage + 1) !in s.calls
    ensures var s, e := states[|events|], Arrive(x, states[|events|].stage + 1);
            && Enabled(s, e)
            && (var s' := Next(s, e);
                && s'.stage == s.stage && s'.epoch == s.epoch && s'.locker && s'.services == s.services
                && s'.transforms == s.transforms && NobodyAhead(s')
                && s'.calls.Keys == s.calls.Keys + {Call(x, s.epoch, s.stage + 1)}
                && CountedIn(s', s.epoch, s.stage) == CountedIn(s, s.epoch, s.stage) + {x})
  {
    hide CountedIn, CallsOk, StagesOk, TransformsOk;
    var s := states[|events|];
    var c := Call(x, s.epoch, s.stage + 1);
    Reachable(states, events, |events|);
    LockerHasEpoch(s);
    PlaceLeft(s, c);
    ArriveCounts(s, c, s.stage);
  }

  lemma LockerHasEpoch(s: State)
    requires Inv(s) && s.locker
    ensures s.epoch > 0
  {
  }

  /** From any state in which nobody is ahead, such as that after a reset, the last stage can be reached. */
  lemma {:induction false} LastStageCanBeReached(states: seq<State>, events: seq<Event>)
    returns (states': seq<State>, events': seq<Event>)
    requires IsRun(states, events)
    requires var s := states[|events|];
             && s.locker && s.services != {} && NobodyAhead(s)
             && forall c :: c in s.calls && c.epoch == s.epoch && c.target == s.stage + 1 ==> s.calls[c].Counted()
    ensures IsRun(states', events') && events <= events'
    ensures var s' := states'[|events'|];
            && s'.stage == 4 && s'.epoch == states[|events|].epoch && s'.locker
            && forall t :: 1 <= t <= 4 ==> (s'.epoch, t) in s'.transforms
    decreases STAGES - states[|events|].stage
  {
    hide CountedIn, Inv, Next;
    states', events' := states, events;
    var s := states[|events|];
    StageIsBounded(states, events);
    if s.stage == STAGES {
      forall t | 1 <= t <= 4
        ensures (s.epoch, t) in s.transforms
      {
        StagesTransformed(states, events, |events|, t);
      }
    } else {
      NotLeftOut(s);
      var t, f := AllCanArrive(states, events, s.services - CountedIn(s, s.epoch, s.stage));
      t, f := NextStageCanBeReached(t, f);
      states', events' := LastStageCanBeReached(t, f);
    }
  }

  lemma StageIsBounded(states: seq<State>, events: seq<Event>)
    requires IsRun(states, events)
    ensures states[|events|].stage <= STAGES
  {
    Reachable(states, events, |events|);
  }

  lemma NotLeftOut(s: State)
    requires forall c :: c in s.calls && c.epoch == s.epoch && c.target == s.stage + 1 ==> s.calls[c].Counted()
    ensures forall x :: x in s.services - CountedIn(s, s.epoch, s.stage) ==> Call(x, s.epoch, s.stage + 1) !in s.calls
  {
  }

  /** A reset always gets the services going again, whatever has happened before. */
  lemma ResetStartsOver(states: seq<State>, events: seq<Event>)
    returns (states': seq<State>, events': seq<Event>)
    requires IsRun(states, events) && states[|events|].services != {}
    ensures IsRun(states', events') && events <= events'
    ensures var s, s' := states[|events|], states'[|events'|];
            && s'.stage == 4 && s'.epoch == s.epoch + 1 && s'.locker
            && forall t :: 1 <= t <= 4 ==> (s'.epoch, t) in s'.transforms
  {
    hide CountedIn, GroupsOk, StagesOk, TransformsOk;
    Reachable(states, events, |events|);
    var s := states[|events|];
    states', events' := Extend(states, events, Reset);
    assert forall c :: c in s.calls ==> CallOk(s, c);
    states', events' := LastStageCanBeReached(states', events');
  }

  /** The stage rises one at a time and only a reset takes it back. */
  lemma StageRises(states: seq<State>, events: seq<Event>, i: nat)
    requires IsRun(states, events) && i < |events|
    ensures states[i + 1].epoch == states[i].epoch ==> states[i].stage <= states[i + 1].stage <= states[i].stage + 1
    ensures states[i + 1].epoch != states[i].epoch ==>
              states[i + 1].epoch == states[i].epoch + 1 && states[i + 1].stage == 0 && events[i].Reset?
  {
    hide CountedIn;
    Reachable(states, events, i);
    var s := states[i];
    if events[i].Wake? {
      assert CallOk(s, events[i].call);
    }
  }

  /** A stage is reached only after every service was counted in at all stages before it. */
  lemma ReachedTogether(states: seq<State>, events: seq<Event>, i: nat, k: nat, service: string)
    requires IsRun(states, events) && i < |states|
    requires k < states[i].stage && service in states[i].services
    ensures var c := Call(service, states[i].epoch, k + 1);
            c in states[i].calls && states[i].calls[c].Counted()
  {
    Reachable(states, events, i);
    assert service in CountedIn(states[i], states[i].epoch, k);
  }

  /** The transform of a stage runs at most once per epoch, whether it succeeds or not. */
  lemma TransformsOnce(states: seq<State>, events: seq<Event>, i: nat, a: nat, b: nat)
    requires IsRun(states, events) && i < |states|
    requires a < b < |states[i].transforms|
    ensures states[i].transforms[a] != states[i].transforms[b]
  {
    Reachable(states, events, i);
  }

  /** What can still happen to a call whose epoch is over. */
  predicate StalePhase(was: Phase, now: Phase) {
    match was
    case Arrived => now.Arrived? || now.Sleeping?
    case Sleeping => now.Sleeping?
    case Awake => now.Awake? || now.Panicked?
    case _ => now == was
  }

  lemma StaleStep(s: State, e: Event, c: Call)
    requires Inv(s) && Enabled(s, e)
    requires c in s.calls && c.epoch < s.epoch
    ensures c in Next(s, e).calls && StalePhase(s.calls[c], Next(s, e).calls[c])
  {
    hide CountedIn;
    assert CallOk(s, c);
    assert Group(s, c.epoch, c.target - 1) == -1;
  }

  lemma {:induction false} StaleForever(states: seq<State>, events: seq<Event>, i: nat, j: nat, c: Call)
    requires IsRun(states, events) && i <= j < |states|
    requires c in states[i].calls && c.epoch < states[i].epoch
    ensures c in states[j].calls && c.epoch < states[j].epoch && StalePhase(states[i].calls[c], states[j].calls[c])
    decreases j - i
  {
    hide Inv, Next, Enabled;
    if i == j {
    } else {
      StaleForever(states, events, i, j - 1, c);
      Reachable(states, events, j - 1);
      StaleStep(states[j - 1], events[j - 1], c);
      StageRises(states, events, j - 1);
    }
  }

  /**
   A call that is waiting when a reset comes never returns normally. It is left waiting for
   good exactly when it had been counted in but was not asleep yet; otherwise it can only panic.
   */
  lemma CaughtByReset(states: seq<State>, events: seq<Event>, i: nat, j: nat, c: Call)
    requires IsRun(states, events) && i < j < |states|
    requires events[i].Reset?
    requires c in states[i].calls && c.epoch == states[i].epoch && states[i].calls[c].Waiting()
    ensures c in states[j].calls && !states[j].calls[c].Returned?
    ensures states[i].calls[c].Arrived? <==> states[j].calls[c].Arrived? || states[j].calls[c].Sleeping?
    ensures !states[i].calls[c].Arrived? <==> states[j].calls[c].Awake? || states[j].calls[c].Panicked?
  {
    Reachable(states, events, i);
    assert CallOk(states[i], c);
    StaleForever(states, events, i + 1, j, c);
  }

  /** Without a reset nobody is stuck: once all are counted in, every waiting call can go on. */
  lemma NobodyLeftBehind(states: seq<State>, events: seq<Event>, i: nat, c: Call)
    requires IsRun(states, events) && i < |states|
    requires c in states[i].calls && c.epoch == states[i].epoch && states[i].calls[c].Waiting()
    requires 1 <= c.target && CountedIn(states[i], c.epoch, c.target - 1) == states[i].services
    ensures !states[i].calls[c].Sleeping?
    ensures states[i].calls[c].Arrived? ==> Next(states[i], Wait(c)).calls[c].Awake?
  {
    Reachable(states, events, i);
    assert CallOk(states[i], c);
  }

  /** Such a run exists: one of two services arrives, and the configuration is reset before it sleeps. */
  lemma MissedWakeUp() returns (states: seq<State>, events: seq<Event>, c: Call)
    ensures IsRun(states, events)
    ensures |events| == 3 && events[2].Reset?
    ensures c in states[2].calls && c.epoch == states[2].epoch && states[2].calls[c].Arrived?
  {
    events := [Reset, Arrive("engine", 1), Reset];
    c := Call("engine", 1, 1);
    var s0 := State({"engine", "receiver"}, 0, false, 0, map[], map[], []);
    var s1 := Next(s0, Reset);
    var s2 := Next(s1, Arrive("engine", 1));
    states := [s0, s1, s2, Next(s2, Reset)];
  }
}
