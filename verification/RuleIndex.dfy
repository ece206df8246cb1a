/**
 Rules and the events that trigger them. The engine keeps an index from raw triggers to rules;
 the receiver tells each driver which collapsed events to listen for, and the webhook driver
 drops what matches none of them.
 */
module RuleIndex {
  import opened Values

  /** A rule; what the engine does with it is opaque. */
  datatype Rule = Rule(driver: string, rawEvent: string, system: string, trigger: string, do: Value)

  /** A trigger reduced to a driver's raw event and the condition on its data. */
  datatype Collapsed = Collapsed(driver: string, rawEvent: string, match_: Value)

  /** `None`: the rule's trigger is invalid and the rule is skipped. */
  datatype Semantics = Semantics(collapse: Rule -> Option<Collapsed>, compare: (Value, Value) -> bool)

  datatype Entry = Entry(match_: Value, rule: Rule)

  type Index = map<string, seq<Entry>>

  function Key(c: Collapsed): string {
    c.driver + "." + c.rawEvent
  }

  /** The rules for a raw event, found by reading the list from the start. */
  function Scan(sem: Semantics, rules: seq<Rule>, event: string): seq<Entry> {
    if rules == [] then []
    else
      var n := |rules| - 1;
      var front := Scan(sem, rules[..n], event);
      match sem.collapse(rules[n])
      case None => front
      case Some(c) => if Key(c) == event then front + [Entry(c.match_, rules[n])] else front
  }

  function Lookup(index: Index, event: string): seq<Entry> {
    if event in index then index[event] else []
  }

  /** The index gives, for every event, the same rules in the same order as reading the list. */
  method BuildRuleMap(sem: Semantics, rules: seq<Rule>) returns (index: Index)
    ensures forall event :: Lookup(index, event) == Scan(sem, rules, event)
    ensures forall event :: event in index <==> Scan(sem, rules, event) != []
  {
    index := map[];
    var i := 0;
    while i < |rules|
      invariant 0 <= i <= |rules|
      invariant forall event :: Lookup(index, event) == Scan(sem, rules[..i], event)
      invariant forall event :: event in index <==> Scan(sem, rules[..i], event) != []
    {
      assert rules[..i + 1][..i] == rules[..i];
      match sem.collapse(rules[i]) {
        case None =>
        case Some(c) =>
          var key := Key(c);
          index := index[key := Lookup(index, key) + [Entry(c.match_, rules[i])]];
      }
      i := i + 1;
    }
    assert rules[..|rules|] == rules;
  }

  /** The rules that fire for an event, in order. */
  function Fired(sem: Semantics, entries: seq<Entry>, data: Value): seq<Rule> {
    if entries == [] then []
    else
      var n := |entries| - 1;
      Fired(sem, entries[..n], data) + (if sem.compare(data, entries[n].match_) then [entries[n].rule] else [])
  }

  method CreateSessions(sem: Semantics, index: Index, event: string, data: Value) returns (started: seq<Rule>)
    ensures started == Fired(sem, Lookup(index, event), data)
  {
    started := [];
    if event in index {
      var entries := index[event];
      var i := 0;
      while i < |entries|
        invariant 0 <= i <= |entries|
        invariant started == Fired(sem, entries[..i], data)
      {
        assert entries[..i + 1][..i] == entries[..i];
        if sem.compare(data, entries[i].match_) {
          started := started + [entries[i].rule];
        }
        i := i + 1;
      }
      assert entries[..|entries|] == entries;
    }
  }

  // ------------------------------------------------------------------
  // The receiver and the webhook driver
  // ------------------------------------------------------------------

  /** The name under which the receiver files a rule's collapsed event. */
  function EventName(r: Rule): string {
    if r.driver == "" then r.system + "." + r.trigger else "_." + r.driver + ":" + r.rawEvent
  }

  /** A rule on a system's trigger goes by the system, one on a driver's raw event by the driver. */
  predicate IsNamed(r: Rule, name: string) {
    && (r.driver == "" ==> name == r.system + "." + r.trigger)
    && (r.driver != "" ==> name == "_." + r.driver + ":" + r.rawEvent)
  }

  /** Per driver and event name, the conditions of the rules filed there. */
  type Features = map<string, map<string, seq<Value>>>

  predicate Filed(f: Features, driver: string, match_: Value) {
    driver in f && exists name :: name in f[driver] && match_ in f[driver][name]
  }

  /** A rule, by position, that collapses to a driver's event with a condition. */
  predicate Collapses(sem: Semantics, rules: seq<Rule>, i: int, driver: string, match_: Value) {
    && 0 <= i < |rules|
    && sem.collapse(rules[i]).Some?
    && sem.collapse(rules[i]).value.driver == driver
    && sem.collapse(rules[i]).value.match_ == match_
  }

  /** What is filed under a driver and an event name. */
  function FiledAt(f: Features, driver: string, name: string): seq<Value> {
    if driver in f && name in f[driver] then f[driver][name] else []
  }

  /** The conditions of the valid rules for a driver and an event name, in the order of the rules. */
  function Conditions(sem: Semantics, rules: seq<Rule>, driver: string, name: string): seq<Value> {
    if rules == [] then []
    else
      var n := |rules| - 1;
      var front := Conditions(sem, rules[..n], driver, name);
      match sem.collapse(rules[n])
      case None => front
      case Some(c) => if c.driver == driver && EventName(rules[n]) == name then front + [c.match_] else front
  }

  lemma ConditionsNext(sem: Semantics, rules: seq<Rule>, i: nat, driver: string, name: string)
    requires i < |rules|
    ensures Conditions(sem, rules[..i + 1], driver, name)
            == Conditions(sem, rules[..i], driver, name)
               + match sem.collapse(rules[i])
                 case None => []
                 case Some(c) => if c.driver == driver && EventName(rules[i]) == name then [c.match_] else []
  {
    assert rules[..i + 1][..i] == rules[..i];
  }

  lemma {:induction false} ConditionsAre(sem: Semantics, rules: seq<Rule>, driver: string, name: string, v: Value)
    ensures v in Conditions(sem, rules, driver, name)
            <==> exists i :: Collapses(sem, rules, i, driver, v) && IsNamed(rules[i], name)
    decreases |rules|
  {
    if rules != [] {
      hide IsNamed, EventName;
      var n := |rules| - 1;
      var front := rules[..n];
      ConditionsAre(sem, front, driver, name, v);
      NameIs(rules[n], name);
      assert forall i :: i < n ==> (Collapses(sem, rules, i, driver, v) <==> Collapses(sem, front, i, driver, v));
      assert forall i :: 0 <= i < n ==> rules[i] == front[i];
      assert v in Conditions(sem, rules, driver, name)
             <==> v in Conditions(sem, front, driver, name)
                  || (Collapses(sem, rules, n, driver, v) && IsNamed(rules[n], name));
    }
  }

  lemma NameIs(r: Rule, name: string)
    ensures IsNamed(r, name) <==> EventName(r) == name
  {
  }

  lemma FiledIffCollapses(sem: Semantics, rules: seq<Rule>, f: Features, d: string, v: Value)
    requires forall name :: FiledAt(f, d, name) == Conditions(sem, rules, d, name)
    ensures Filed(f, d, v) <==> exists i :: Collapses(sem, rules, i, d, v)
  {
    hide Conditions;
    if Filed(f, d, v) {
      var name :| name in f[d] && v in f[d][name];
      assert v in FiledAt(f, d, name);
      ConditionsAre(sem, rules, d, name, v);
    }
    if i :| Collapses(sem, rules, i, d, v) {
      NameIs(rules[i], EventName(rules[i]));
      ConditionsAre(sem, rules, d, EventName(rules[i]), v);
      assert v in FiledAt(f, d, EventName(rules[i]));
    }
  }

  /** The rules, by position, whose trigger is valid. */
  function Valid(sem: Semantics, rules: seq<Rule>, n: nat): set<int>
    requires n <= |rules|
  {
    set i | 0 <= i < n && sem.collapse(rules[i]).Some?
  }

  lemma ValidNext(sem: Semantics, rules: seq<Rule>, n: nat)
    requires n < |rules|
    ensures |Valid(sem, rules, n + 1)| == |Valid(sem, rules, n)| + (if sem.collapse(rules[n]).Some? then 1 else 0)
  {
    assert Valid(sem, rules, n + 1) == Valid(sem, rules, n) + (if sem.collapse(rules[n]).Some? then {n} else {});
  }

  predicate NoneEmpty(f: Features) {
    forall d, name :: d in f && name in f[d] ==> f[d][name] != []
  }

  function AddFeature(f: Features, driver: string, name: string, v: Value): Features {
    var events := if driver in f then f[driver] else map[];
    f[driver := events[name := (if name in events then events[name] else []) + [v]]]
  }

  lemma AddFeatureAt(f: Features, driver: string, name: string, v: Value)
    requires NoneEmpty(f)
    ensures var g := AddFeature(f, driver, name, v);
            && NoneEmpty(g)
            && forall d, n :: FiledAt(g, d, n) == FiledAt(f, d, n) + (if d == driver && n == name then [v] else [])
  {
  }

  /** The receiver files the conditions of all valid rules, in order, and nothing else. */
  method ReceiverFeatures(sem: Semantics, rules: seq<Rule>) returns (f: Features, numCollapsed: nat)
    ensures forall d, name :: FiledAt(f, d, name) == Conditions(sem, rules, d, name)
    ensures NoneEmpty(f)
    ensures forall d, v :: Filed(f, d, v) <==> exists i :: Collapses(sem, rules, i, d, v)
    ensures numCollapsed == |Valid(sem, rules, |rules|)|
  {
    hide Filed, FiledAt, Valid, NoneEmpty, EventName, AddFeature, Conditions;
    f, numCollapsed := map[], 0;
    var i := 0;
    NothingFiled(sem, rules);
    while i < |rules|
      invariant 0 <= i <= |rules|
      invariant forall d, name :: FiledAt(f, d, name) == Conditions(sem, rules[..i], d, name)
      invariant NoneEmpty(f)
      invariant numCollapsed == |Valid(sem, rules, i)|
    {
      ValidNext(sem, rules, i);
      forall d, name {
        ConditionsNext(sem, rules, i, d, name);
      }
      match sem.collapse(rules[i]) {
        case None =>
        case Some(c) =>
          AddFeatureAt(f, c.driver, EventName(rules[i]), c.match_);
          f := AddFeature(f, c.driver, EventName(rules[i]), c.match_);
          numCollapsed := numCollapsed + 1;
      }
      i := i + 1;
    }
    assert rules[..|rules|] == rules;
    forall d, v
      ensures Filed(f, d, v) <==> exists i :: Collapses(sem, rules, i, d, v)
    {
      FiledIffCollapses(sem, rules, f, d, v);
    }
  }

  lemma NothingFiled(sem: Semantics, rules: seq<Rule>)
    ensures forall d, name :: FiledAt(map[], d, name) == Conditions(sem, rules[..0], d, name)
    ensures NoneEmpty(map[]) && Valid(sem, rules, 0) == {}
  {
  }

  /** The webhook driver looks through what the receiver filed for it, in any order. */
  method Accepts(sem: Semantics, f: Features, data: Value) returns (matched: bool)
    ensures matched <==> exists v :: Filed(f, "webhook", v) && sem.compare(data, v)
  {
    matched := false;
    if "webhook" !in f {
      return;
    }
    var hooks := f["webhook"];
    var left := hooks.Keys;
    while left != {} && !matched
      invariant left <= hooks.Keys
      invariant matched ==> exists v :: Filed(f, "webhook", v) && sem.compare(data, v)
      invariant !matched ==>
                  forall name, v :: name in hooks && name !in left && v in hooks[name] ==> !sem.compare(data, v)
      decreases left
    {
      var name :| name in left;
      left := left - {name};
      var i := 0;
      while i < |hooks[name]| && !matched
        invariant 0 <= i <= |hooks[name]|
        invariant matched ==> exists v :: Filed(f, "webhook", v) && sem.compare(data, v)
        invariant !matched ==> forall k :: 0 <= k < i ==> !sem.compare(data, hooks[name][k])
      {
        if sem.compare(data, hooks[name][i]) {
          assert Filed(f, "webhook", hooks[name][i]);
          matched := true;
        }
        i := i + 1;
      }
    }
  }

  // ------------------------------------------------------------------
  // The filter and the engine
  // ------------------------------------------------------------------

  const WEBHOOK := "webhook."

  lemma KeyIsWebhook(c: Collapsed)
    ensures Key(c) == WEBHOOK <==> c.driver == "webhook" && c.rawEvent == ""
  {
    if Key(c) == WEBHOOK {
      var n := |c.driver|;
      assert Key(c)[n] == '.';
      assert WEBHOOK[..7] == "webhook" && Key(c)[..n] == c.driver && Key(c)[n + 1..] == c.rawEvent;
      assert n == 7;
    }
  }

  /** A rule, by position, whose collapsed condition an event meets. */
  predicate Hits(sem: Semantics, rules: seq<Rule>, i: int, event: string, data: Value) {
    && 0 <= i < |rules|
    && sem.collapse(rules[i]).Some?
    && sem.collapse(rules[i]).value.driver + "." + sem.collapse(rules[i]).value.rawEvent == event
    && sem.compare(data, sem.collapse(rules[i]).value.match_)
  }

  lemma {:induction false} FiresIff(sem: Semantics, rules: seq<Rule>, event: string, data: Value)
    ensures Fired(sem, Scan(sem, rules, event), data) != [] <==> exists i :: Hits(sem, rules, i, event, data)
    decreases |rules|
  {
    if rules == [] {
    } else {
      var n := |rules| - 1;
      var front := rules[..n];
      FiresIff(sem, front, event, data);
      assert forall i :: i < n ==> (Hits(sem, rules, i, event, data) <==> Hits(sem, front, i, event, data));
      var before, all := Scan(sem, front, event), Scan(sem, rules, event);
      if all != before {
        assert all[..|all| - 1] == before;
      }
      assert Fired(sem, all, data) != [] <==> Fired(sem, before, data) != [] || Hits(sem, rules, n, event, data);
    }
  }

  predicate Rising(at: seq<nat>) {
    forall i, j :: 0 <= i < j < |at| ==> at[i] < at[j]
  }

  /** The rules at some positions. */
  ghost predicate Selects(rules: seq<Rule>, at: seq<nat>, picked: seq<Rule>) {
    && |picked| == |at|
    && forall i :: 0 <= i < |at| ==> at[i] < |rules| && picked[i] == rules[at[i]]
  }

  /** What fires for an event is exactly every rule that is met, each once and in the order of the rules. */
  lemma {:induction false} FiresExactly(sem: Semantics, rules: seq<Rule>, event: string, data: Value)
    returns (at: seq<nat>)
    ensures Rising(at) && Selects(rules, at, Fired(sem, Scan(sem, rules, event), data))
    ensures forall i: nat :: i in at <==> Hits(sem, rules, i, event, data)
    decreases |rules|
  {
    hide Scan, Fired, Hits, Rising, Selects;
    if rules == [] {
      at := [];
      NothingFires(sem, event, data);
    } else {
      var n := |rules| - 1;
      at := FiresExactly(sem, rules[..n], event, data);
      FiredNext(sem, rules, event, data);
      HitsFront(sem, rules, event, data);
      SelectsMore(rules, at, Fired(sem, Scan(sem, rules[..n], event), data));
      RisingMore(at, n);
      if Hits(sem, rules, n, event, data) {
        at := at + [n];
      }
    }
  }

  lemma NothingFires(sem: Semantics, event: string, data: Value)
    ensures Fired(sem, Scan(sem, [], event), data) == [] && Rising([]) && Selects([], [], [])
    ensures forall i :: !Hits(sem, [], i, event, data)
  {
  }

  lemma RisingMore(at: seq<nat>, n: nat)
    requires Rising(at) && forall i :: i in at ==> i < n
    ensures Rising(at + [n])
    ensures forall i :: i in at + [n] <==> i in at || i == n
  {
    assert forall i :: 0 <= i < |at| ==> at[i] in at;
  }

  lemma SelectsMore(rules: seq<Rule>, at: seq<nat>, picked: seq<Rule>)
    requires rules != [] && Selects(rules[..|rules| - 1], at, picked)
    ensures Selects(rules, at, picked)
    ensures Selects(rules, at + [|rules| - 1], picked + [rules[|rules| - 1]])
  {
  }

  lemma HitsFront(sem: Semantics, rules: seq<Rule>, event: string, data: Value)
    requires rules != []
    ensures var n := |rules| - 1;
            && (forall i :: Hits(sem, rules[..n], i, event, data) <==> i < n && Hits(sem, rules, i, event, data))
            && (forall i :: Hits(sem, rules, i, event, data) ==> 0 <= i <= n)
  {
  }

  lemma FiredNext(sem: Semantics, rules: seq<Rule>, event: string, data: Value)
    requires rules != []
    ensures var n := |rules| - 1;
            var front := Fired(sem, Scan(sem, rules[..n], event), data);
            Fired(sem, Scan(sem, rules, event), data)
            == if Hits(sem, rules, n, event, data) then front + [rules[n]] else front
  {
    var n := |rules| - 1;
    var before, all := Scan(sem, rules[..n], event), Scan(sem, rules, event);
    if all != before {
      assert all[..|all| - 1] == before;
    }
  }

  /**
   The driver accepts an event exactly when a rule on the plain webhook event fires in the
   engine, or a rule on some other webhook event has a condition that is met.
   */
  lemma FilterAgrees(sem: Semantics, rules: seq<Rule>, f: Features, accepted: bool, data: Value)
    requires forall d, v :: Filed(f, d, v) <==> exists i :: Collapses(sem, rules, i, d, v)
    requires accepted <==> exists v :: Filed(f, "webhook", v) && sem.compare(data, v)
    ensures accepted <==>
              || Fired(sem, Scan(sem, rules, WEBHOOK), data) != []
              || exists i :: Stray(sem, rules, i) && sem.compare(data, sem.collapse(rules[i]).value.match_)
  {
    FiresIff(sem, rules, WEBHOOK, data);
    if accepted {
      var v :| Filed(f, "webhook", v) && sem.compare(data, v);
      var i :| Collapses(sem, rules, i, "webhook", v);
      KeyIsWebhook(sem.collapse(rules[i]).value);
      assert Hits(sem, rules, i, WEBHOOK, data) || Stray(sem, rules, i);
    }
    if i :| Hits(sem, rules, i, WEBHOOK, data) {
      KeyIsWebhook(sem.collapse(rules[i]).value);
      assert Collapses(sem, rules, i, "webhook", sem.collapse(rules[i]).value.match_);
      assert Filed(f, "webhook", sem.collapse(rules[i]).value.match_);
    }
    if i :| Stray(sem, rules, i) && sem.compare(data, sem.collapse(rules[i]).value.match_) {
      assert Collapses(sem, rules, i, "webhook", sem.collapse(rules[i]).value.match_);
      assert Filed(f, "webhook", sem.collapse(rules[i]).value.match_);
    }
  }

  /** A rule on a webhook event with a name, which the engine never sees. */
  predicate Stray(sem: Semantics, rules: seq<Rule>, i: int) {
    && 0 <= i < |rules|
    && sem.collapse(rules[i]).Some?
    && sem.collapse(rules[i]).value.driver == "webhook"
    && sem.collapse(rules[i]).value.rawEvent != ""
  }
}
