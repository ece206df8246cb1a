/**
 Workflow definitions, and the data side of a session: contexts, exports, settings.

 Interpolation, map merging and condition evaluation are arbitrary deterministic functions,
 collected in `Semantics`; every result about sessions holds for all of them.
 */
module Workflow {
  import opened Values

  datatype Definition = Definition(
    name: string,
    onError: string,
    onFailure: string,
    noExport: seq<string>,
    isLoop: bool,
    iterate: Option<seq<Value>>,
    iterateAs: string,
    action: Action,
    otherwise: Option<Definition>,
    details: Value)

  /** At most one action field of a workflow is set. */
  datatype Action =
    | Call
    | Invoke
    | Steps(steps: seq<Definition>)
    | Switch(cases: map<string, Definition>, fallback: Option<Definition>)
    | Nothing

  datatype Prepared = Prepared(wf: Definition, ctx: Ctx)

  datatype Exported = Exported(ctx: Ctx, deltas: seq<Ctx>, msg: Message)

  /** What the engine does with data; `None` stands for a panic. */
  datatype Semantics = Semantics(
    workflows: map<string, Definition>,
    prepare: (Definition, Ctx, Message) -> Option<Prepared>,
    condition: (Definition, Ctx) -> bool,
    loopCondition: (Definition, Ctx, Message) -> bool,
    switchKey: (Definition, Ctx, Message) -> string,
    callee: (Definition, Ctx, Message) -> string,
    function_: (Definition, Ctx, Message) -> Option<Value>,
    merge: (Ctx, Ctx) -> Ctx,
    export_: (Definition, Option<Value>, Ctx, Message) -> Exported)

  /** A command sent to a driver: the function and the environment it is sent with. */
  datatype Command = Command(what: Value, ctx: Ctx, msg: Message)

  /** The data a running session carries. */
  datatype Frame = Frame(ctx: Ctx, exported: seq<Ctx>, inFly: Option<Value>)

  /** The status ends the session early. */
  predicate Exits(wf: Definition, msg: Message) {
    || (msg.Status() == ERROR && wf.onError != "continue")
    || (msg.Status() == FAILURE && wf.onFailure == "exit")
  }

  /** What a session that does nothing returns. */
  function SuccessOf(msg: Message): (r: Message)
    ensures r.Status() == SUCCESS
    ensures msg.Status() == SUCCESS ==> r == msg
  {
    if msg.Status() != SUCCESS then SuccessMessage() else msg
  }

  /** Settings left empty are taken from the parent. */
  function Inherit(wf: Definition, parent: Definition): Definition {
    wf.(onError := if wf.onError == "" then parent.onError else wf.onError,
        onFailure := if wf.onFailure == "" then parent.onFailure else wf.onFailure)
  }

  /** The child session's definition and context; hooks are not inherited. */
  function Spawn(sem: Semantics, parent: Definition, ctx: Ctx, wf: Definition, msg: Message): Option<Prepared> {
    match sem.prepare(wf, ctx - {"hooks"}, msg)
    case None => None
    case Some(p) => Some(p.(wf := Inherit(p.wf, parent)))
  }

  /** The keys a workflow does not export are dropped. */
  function Keep(noExport: seq<string>, delta: Ctx): Ctx
    decreases |noExport|
  {
    if noExport == [] then delta
    else if noExport[0] == "*" then map[]
    else Keep(noExport[1..], delta - {noExport[0], noExport[0] + "-", noExport[0] + "+"})
  }

  /** A child's exports are merged into the context and, if not empty, passed on. */
  function Absorb(sem: Semantics, wf: Definition, fr: Frame, exports: seq<Ctx>): Frame
    decreases |exports|
  {
    if exports == [] then fr
    else
      var kept := Keep(wf.noExport, exports[0]);
      var fr1 := fr.(ctx := sem.merge(fr.ctx, exports[0]),
                     exported := if kept == map[] then fr.exported else fr.exported + [kept]);
      Absorb(sem, wf, fr1, exports[1..])
  }

  /** The context of one iteration. */
  function BindItem(wf: Definition, ctx: Ctx, item: Value): Ctx {
    var ctx1 := ctx["current" := item];
    if wf.iterateAs != "" then ctx1[wf.iterateAs := item] else ctx1
  }

  function BindLoop(wf: Definition, ctx: Ctx, round: nat): Ctx {
    if wf.isLoop then ctx["loop_count" := Num(round)] else ctx
  }

  /** A call records the callee's name in the context of an unnamed workflow. */
  function BindCallee(wf: Definition, ctx: Ctx, callee: string): Ctx {
    if wf.name == "" then ctx["_meta_name" := Str("calling " + callee)] else ctx
  }

  function Named(wf: Definition, name: string): Definition {
    if wf.name == "" then wf.(name := name) else wf
  }

  // ------------------------------------------------------------------
  // What the data functions mean
  // ------------------------------------------------------------------

  /** A `no_export` entry names a key, with or without a merge modifier. */
  predicate Names(entry: string, k: string) {
    entry == "*" || k == entry || k == entry + "-" || k == entry + "+"
  }

  predicate Withheld(noExport: seq<string>, k: string) {
    exists i :: 0 <= i < |noExport| && Names(noExport[i], k)
  }

  /** Exactly the keys that are not withheld are passed on, with their values. */
  lemma {:induction false} KeepExactly(noExport: seq<string>, delta: Ctx, k: string)
    ensures k in Keep(noExport, delta) <==> k in delta && !Withheld(noExport, k)
    ensures k in Keep(noExport, delta) ==> Keep(noExport, delta)[k] == delta[k]
    decreases |noExport|
  {
    if noExport == [] {
    } else {
      var head, rest := noExport[0], noExport[1..];
      WithheldHead(noExport, k);
      if head != "*" {
        KeepExactly(rest, delta - {head, head + "-", head + "+"}, k);
      }
    }
  }

  lemma WithheldHead(noExport: seq<string>, k: string)
    requires noExport != []
    ensures Withheld(noExport, k) <==> Names(noExport[0], k) || Withheld(noExport[1..], k)
  {
    hide Names;
    if i :| 0 <= i < |noExport[1..]| && Names(noExport[1..][i], k) {
      assert Names(noExport[i + 1], k);
    }
    if i :| 0 < i < |noExport| && Names(noExport[i], k) {
      assert Names(noExport[1..][i - 1], k);
    }
  }

  /** What of a child's exports goes on to the parent's parent. */
  function PassedOn(wf: Definition, exports: seq<Ctx>): seq<Ctx> {
    if exports == [] then []
    else
      var kept := Keep(wf.noExport, exports[0]);
      (if kept == map[] then [] else [kept]) + PassedOn(wf, exports[1..])
  }

  /** All exports reach the context, in order. */
  function MergeAll(sem: Semantics, ctx: Ctx, exports: seq<Ctx>): Ctx {
    if exports == [] then ctx
    else sem.merge(MergeAll(sem, ctx, exports[..|exports| - 1]), exports[|exports| - 1])
  }

  lemma {:induction false} MergeFirst(sem: Semantics, ctx: Ctx, exports: seq<Ctx>)
    requires exports != []
    ensures MergeAll(sem, ctx, exports) == MergeAll(sem, sem.merge(ctx, exports[0]), exports[1..])
    decreases |exports|
  {
    var n := |exports| - 1;
    if n == 0 {
      assert exports[1..] == [] && exports[..0] == [];
    } else {
      MergeFirst(sem, ctx, exports[..n]);
      assert exports[..n][1..] == exports[1..][..n - 1];
    }
  }

  /** The whole of a child's exports is merged; what is not withheld is passed on, in order. */
  lemma {:induction false} AbsorbIsMerge(sem: Semantics, wf: Definition, fr: Frame, exports: seq<Ctx>)
    ensures Absorb(sem, wf, fr, exports)
            == Frame(MergeAll(sem, fr.ctx, exports), fr.exported + PassedOn(wf, exports), fr.inFly)
    decreases |exports|
  {
    hide Keep;
    if exports == [] {
      assert fr.exported + PassedOn(wf, exports) == fr.exported;
    } else {
      var kept := Keep(wf.noExport, exports[0]);
      var fr1 := fr.(ctx := sem.merge(fr.ctx, exports[0]),
                     exported := if kept == map[] then fr.exported else fr.exported + [kept]);
      AbsorbIsMerge(sem, wf, fr1, exports[1..]);
      MergeFirst(sem, fr.ctx, exports);
      assert fr1.exported + PassedOn(wf, exports[1..]) == fr.exported + PassedOn(wf, exports);
    }
  }

  /** The contexts along the way: each export is merged into what there is by then. */
  lemma {:induction false} MergedInOrder(sem: Semantics, ctx: Ctx, exports: seq<Ctx>) returns (at: seq<Ctx>)
    ensures |at| == |exports| + 1 && at[0] == ctx && at[|exports|] == MergeAll(sem, ctx, exports)
    ensures forall k :: 0 <= k < |exports| ==> at[k + 1] == sem.merge(at[k], exports[k])
    decreases |exports|
  {
    if exports == [] {
      at := [ctx];
    } else {
      var n := |exports| - 1;
      var front := MergedInOrder(sem, ctx, exports[..n]);
      at := front + [sem.merge(front[n], exports[n])];
    }
  }

  lemma {:induction false} PassedSnoc(wf: Definition, exports: seq<Ctx>)
    requires exports != []
    ensures var n := |exports| - 1;
            var kept := Keep(wf.noExport, exports[n]);
            PassedOn(wf, exports) == if kept == map[] then PassedOn(wf, exports[..n])
                                     else PassedOn(wf, exports[..n]) + [kept]
    decreases |exports|
  {
    hide Keep;
    var n := |exports| - 1;
    if n == 0 {
      assert exports[1..] == [] && exports[..0] == [];
    } else {
      PassedSnoc(wf, exports[1..]);
      assert exports[1..][..n - 1] == exports[..n][1..];
    }
  }

  /** The exports at these positions, and no others, survive and are passed on. */
  ghost predicate Survive(wf: Definition, exports: seq<Ctx>, at: seq<nat>, passed: seq<Ctx>) {
    && |passed| == |at|
    && (forall i :: 0 <= i < |at| ==> at[i] < |exports| && passed[i] == Keep(wf.noExport, exports[at[i]]))
    && (forall k: nat :: k in at <==> k < |exports| && Keep(wf.noExport, exports[k]) != map[])
    && (forall i, j :: 0 <= i < j < |at| ==> at[i] < at[j])
  }

  lemma SurviveNext(wf: Definition, exports: seq<Ctx>, at: seq<nat>, passed: seq<Ctx>)
    requires exports != [] && Survive(wf, exports[..|exports| - 1], at, passed)
    ensures var n := |exports| - 1;
            var kept := Keep(wf.noExport, exports[n]);
            if kept == map[] then Survive(wf, exports, at, passed) else Survive(wf, exports, at + [n], passed + [kept])
  {
    hide Keep;
    var n := |exports| - 1;
    assert forall i :: 0 <= i < |at| ==> at[i] in at;
    assert forall k :: 0 <= k < n ==> exports[..n][k] == exports[k];
    assert forall k: nat :: k in at + [n] <==> k in at || k == n;
  }

  /** What is passed on: every export that is not withheld as a whole, in order. */
  lemma {:induction false} PassedExactly(wf: Definition, exports: seq<Ctx>) returns (at: seq<nat>)
    ensures Survive(wf, exports, at, PassedOn(wf, exports))
    decreases |exports|
  {
    if exports == [] {
      at := [];
    } else {
      hide Keep, Survive, PassedOn;
      var n := |exports| - 1;
      at := PassedExactly(wf, exports[..n]);
      PassedSnoc(wf, exports);
      SurviveNext(wf, exports, at, PassedOn(wf, exports[..n]));
      if Keep(wf.noExport, exports[n]) != map[] {
        at := at + [n];
      }
    }
  }

  /** Settings inherited down a chain of sessions, root first. */
  function Effective(chain: seq<Definition>): Definition
    requires chain != []
  {
    if |chain| == 1 then chain[0] else Inherit(chain[|chain| - 1], Effective(chain[..|chain| - 1]))
  }

  /** The nearest session that has the setting decides it. */
  lemma {:induction false} NearestDecides(chain: seq<Definition>, i: nat)
    requires i < |chain|
    requires forall j :: i < j < |chain| ==> chain[j].onError == ""
    requires chain[i].onError != "" || i == 0
    ensures Effective(chain).onError == chain[i].onError
    decreases |chain|
  {
    if |chain| > 1 && i < |chain| - 1 {
      NearestDecides(chain[..|chain| - 1], i);
    }
  }

  lemma {:induction false} NearestDecidesFailure(chain: seq<Definition>, i: nat)
    requires i < |chain|
    requires forall j :: i < j < |chain| ==> chain[j].onFailure == ""
    requires chain[i].onFailure != "" || i == 0
    ensures Effective(chain).onFailure == chain[i].onFailure
    decreases |chain|
  {
    if |chain| > 1 && i < |chain| - 1 {
      NearestDecidesFailure(chain[..|chain| - 1], i);
    }
  }
}
