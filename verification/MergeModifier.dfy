/**
 Merge modifiers: in a map, a key `k-` gives a default for `k`, `k+` appends to it and `k*`
 overrides it. The program applies them while ranging over the map it changes, in the
 arbitrary order of a Go map.
 */
module MergeModifier {
  import opened Values

  datatype Kind = Plain | Default | Append | Override

  function KindOf(k: string): Kind {
    if k == [] then Plain
    else
      var c := k[|k| - 1];
      if c == '-' then Default else if c == '+' then Append else if c == '*' then Override else Plain
  }

  function Base(k: string): string {
    if KindOf(k).Plain? then k else k[..|k| - 1]
  }

  function With(b: string, c: char): (k: string)
    ensures c == '-' || c == '+' || c == '*' ==> Base(k) == b
  {
    b + [c]
  }

  /** Not empty, and at most one modifier on a base that is not empty. */
  predicate GoodKey(k: string) {
    k != "" && Base(k) != "" && KindOf(Base(k)).Plain?
  }

  lemma KeyIsWith(k: string)
    ensures KindOf(k).Default? <==> k == With(Base(k), '-')
    ensures KindOf(k).Append? <==> k == With(Base(k), '+')
    ensures KindOf(k).Override? <==> k == With(Base(k), '*')
  {
    if k != [] {
      assert k == k[..|k| - 1] + [k[|k| - 1]];
    }
    if KindOf(k).Plain? {
      assert |With(Base(k), '-')| > |k|;
    }
  }

  // ------------------------------------------------------------------
  // The declarative meaning
  // ------------------------------------------------------------------

  function Bases(m: Ctx): set<string> {
    set k | k in m :: Base(k)
  }

  /** The key that holds the value of `b` before appending and overriding. */
  function DefaultKey(m: Ctx, b: string): (k: Option<string>)
    ensures k.Some? ==> k.value in m && (k.value == b || k.value == With(b, '-'))
  {
    if b in m && m[b] != Nil then Some(b)
    else if With(b, '-') in m then Some(With(b, '-'))
    else if b in m then Some(b)
    else None
  }

  /** Where the value of a base comes from: a value in the map, or a new one. */
  datatype Source = From(key: string) | New(value: Value)

  function Append2(a: Value, b: Value): Value {
    match (a, b)
    case (Str(x), Str(y)) => Str(x + y)
    case (List(x), List(y)) => List(x + y)
    case _ => a
  }

  function Resolve(m: Ctx, b: string): (s: Source)
    requires b in Bases(m)
    ensures s.From? ==> s.key in m
  {
    if With(b, '*') in m then From(With(b, '*'))
    else
      var d := DefaultKey(m, b);
      KeysOf(m, b);
      if With(b, '+') in m then
        if d.None? || m[d.value] == Nil then From(With(b, '+'))
        else if m[With(b, '+')] == Nil then From(d.value)
        else New(Append2(m[d.value], m[With(b, '+')]))
      else From(d.value)
  }

  lemma KeysOf(m: Ctx, b: string)
    requires b in Bases(m)
    ensures b in m || With(b, '-') in m || With(b, '+') in m || With(b, '*') in m
  {
    var k :| k in m && Base(k) == b;
    KeyIsWith(k);
  }

  /** A value with all modifiers applied, at every depth of nested maps. */
  function Normal(v: Value): Value
    decreases v
  {
    match v
    case Map(m) =>
      Map(map b | b in Bases(m) ::
            match Resolve(m, b)
            case From(k) => Normal(m[k])
            case New(x) => x)
    case _ => v
  }

  function NormalAt(m: Ctx, b: string): Value
    requires b in Bases(m)
  {
    match Resolve(m, b)
    case From(k) => Normal(m[k])
    case New(x) => x
  }

  /** No modifier is left in any nested map. */
  ghost predicate Clean(v: Value)
    decreases v
  {
    v.Map? ==> forall k :: k in v.fields ==> k != "" && KindOf(k).Plain? && Clean(v.fields[k])
  }

  ghost predicate Matching(m: Ctx, b: string)
    requires With(b, '+') in m
  {
    var d := DefaultKey(m, b);
    var v := m[With(b, '+')];
    d.None? || Appendable(m[d.value], v)
  }

  ghost predicate WfMap(m: Ctx) {
    && (forall k :: k in m ==> GoodKey(k))
    && (forall k :: k in m && (KindOf(k).Append? || KindOf(k).Override?) ==> Clean(m[k]))
    && (forall b :: With(b, '+') in m ==> With(b, '*') !in m && Matching(m, b))
  }

  /** The inputs the merge is defined on, whatever the order. */
  ghost predicate Wf(v: Value)
    decreases v
  {
    v.Map? ==> WfMap(v.fields) && forall k :: k in v.fields ==> Wf(v.fields[k])
  }

  // ------------------------------------------------------------------
  // The steps of the two loops
  // ------------------------------------------------------------------

  function DefaultStep(m: Ctx, k: string): Ctx
    requires k in m && KindOf(k).Default?
  {
    var b := Base(k);
    (if b !in m || m[b] == Nil then m[b := m[k]] else m) - {k}
  }

  function AppendStep(m: Ctx, k: string): Ctx
    requires k in m && KindOf(k).Append?
  {
    var b := Base(k);
    (if b !in m || m[b] == Nil then m[b := m[k]]
     else if m[k] == Nil then m
     else m[b := Append2(m[b], m[k])]) - {k}
  }

  function OverrideStep(m: Ctx, k: string): Ctx
    requires k in m && KindOf(k).Override?
  {
    m[Base(k) := m[k]] - {k}
  }

  /** Appending does not panic. */
  predicate Appendable(a: Value, b: Value) {
    a == Nil || b == Nil || (a.Str? && b.Str?) || (a.List? && b.List?)
  }

  /**
   An append and an override on one base: the two orders of the range agree exactly when
   appending to the override leaves it as it is.
   */
  lemma AppendAndOverrideConflict(m: Ctx, b: string)
    requires With(b, '+') in m && With(b, '*') in m && KindOf(b).Plain?
    requires b in m ==> Appendable(m[b], m[With(b, '+')])
    requires Appendable(m[With(b, '*')], m[With(b, '+')])
    ensures var plus, star := With(b, '+'), With(b, '*');
            (OverrideStep(AppendStep(m, plus), star) == AppendStep(OverrideStep(m, star), plus))
            <==> (if m[star] == Nil then m[plus] == Nil else m[plus] == Nil || Append2(m[star], m[plus]) == m[star])
  {
    var plus, star := With(b, '+'), With(b, '*');
    assert plus[|b|] == '+' && star[|b|] == '*';
    var x, y := OverrideStep(AppendStep(m, plus), star), AppendStep(OverrideStep(m, star), plus);
    assert x.Keys == y.Keys == m.Keys + {b} - {plus, star};
    assert forall k :: k in x && k != b ==> x[k] == y[k] == m[k];
    assert x[b] == m[star];
  }

  // ------------------------------------------------------------------
  // Normal values
  // ------------------------------------------------------------------

  /** In a map of plain keys every value stands for itself. */
  lemma PlainResolve(m: Ctx, k: string)
    requires forall k :: k in m ==> KindOf(k).Plain?
    requires k in m
    ensures Bases(m) == m.Keys && Resolve(m, k) == From(k)
  {
    KeyIsWith(With(k, '-'));
    KeyIsWith(With(k, '+'));
    KeyIsWith(With(k, '*'));
  }

  lemma PlainNormal(m: Ctx)
    requires forall k :: k in m ==> KindOf(k).Plain? && Normal(m[k]) == m[k]
    ensures Normal(Map(m)) == Map(m)
  {
    hide Resolve, Bases;
    PlainBases(m);
    forall k | k in m
      ensures Resolve(m, k) == From(k)
    {
      PlainResolve(m, k);
    }
    assert Normal(Map(m)).fields == m;
  }

  lemma PlainBases(m: Ctx)
    requires forall k :: k in m ==> KindOf(k).Plain?
    ensures Bases(m) == m.Keys
  {
  }

  lemma {:induction false} CleanIsNormal(v: Value)
    requires Clean(v)
    ensures Normal(v) == v
    decreases v
  {
    if v.Map? {
      forall k | k in v.fields
        ensures Normal(v.fields[k]) == v.fields[k]
      {
        CleanIsNormal(v.fields[k]);
      }
      PlainNormal(v.fields);
    }
  }

  lemma {:induction false} CleanIsWf(v: Value)
    requires Clean(v)
    ensures Wf(v)
    decreases v
  {
    if v.Map? {
      var m := v.fields;
      forall b | With(b, '+') in m
        ensures false
      {
        KeyIsWith(With(b, '+'));
      }
      forall k | k in m
        ensures Wf(m[k])
      {
        CleanIsWf(m[k]);
      }
    }
  }

  lemma BaseIsPlain(m: Ctx, b: string)
    requires (forall k :: k in m ==> GoodKey(k)) && b in Bases(m)
    ensures b != "" && KindOf(b).Plain?
  {
  }

  lemma CleanAt(m: Ctx, b: string)
    requires b in Bases(m) && forall k :: k in m ==> Clean(Normal(m[k]))
    requires forall k :: k in m && KindOf(k).Append? ==> Clean(m[k])
    requires With(b, '+') in m ==> Matching(m, b)
    ensures Clean(NormalAt(m, b))
  {
    hide Normal, Bases;
    assert KindOf(With(b, '+')).Append?;
  }

  /** No modifier is left, at any depth. */
  lemma {:induction false} NormalIsClean(v: Value)
    requires Wf(v)
    ensures Clean(Normal(v))
    decreases v
  {
    hide Matching, Resolve, Bases, GoodKey, KindOf;
    if v.Map? {
      var m := v.fields;
      forall k | k in m
        ensures Clean(Normal(m[k]))
      {
        NormalIsClean(m[k]);
      }
      forall b | b in Bases(m)
        ensures b != "" && KindOf(b).Plain? && Clean(NormalAt(m, b))
      {
        BaseIsPlain(m, b);
        CleanAt(m, b);
      }
    }
  }

  /** Merging again changes nothing. */
  lemma NormalTwice(v: Value)
    requires Wf(v)
    ensures Normal(Normal(v)) == Normal(v)
  {
    NormalIsClean(v);
    CleanIsNormal(Normal(v));
  }

  lemma NormalExt(m: Ctx, m': Ctx)
    requires Bases(m) == Bases(m')
    requires forall b :: b in Bases(m) ==> NormalAt(m, b) == NormalAt(m', b)
    ensures Normal(Map(m)) == Normal(Map(m'))
  {
    assert Normal(Map(m)).fields == Normal(Map(m')).fields;
  }

  // ------------------------------------------------------------------
  // Every step keeps the meaning of the map
  // ------------------------------------------------------------------

  predicate SameAt(m: Ctx, m': Ctx, k: string) {
    if k in m then k in m' && m'[k] == m[k] else k !in m'
  }

  /** Nothing that bears on base `x` differs. */
  predicate SameBase(m: Ctx, m': Ctx, x: string) {
    SameAt(m, m', x) && SameAt(m, m', With(x, '-')) && SameAt(m, m', With(x, '+')) && SameAt(m, m', With(x, '*'))
  }

  lemma SameBaseSame(m: Ctx, m': Ctx, x: string)
    requires SameBase(m, m', x) && KindOf(x).Plain?
    ensures x in Bases(m) <==> x in Bases(m')
    ensures x in Bases(m) ==> NormalAt(m, x) == NormalAt(m', x)
  {
    hide Normal;
    assert Base(x) == x;
    if x in Bases(m) {
      KeysOf(m, x);
    }
    if x in Bases(m') {
      KeysOf(m', x);
    }
  }

  /** Two maps that differ at one base only, and mean the same there. */
  lemma OneBaseChanged(m: Ctx, m': Ctx, b: string)
    requires forall k :: k in m ==> GoodKey(k)
    requires forall k :: k in m' ==> GoodKey(k)
    requires forall x :: KindOf(x).Plain? && x != b ==> SameBase(m, m', x)
    requires b in Bases(m) && b in Bases(m') && NormalAt(m, b) == NormalAt(m', b)
    ensures Normal(Map(m)) == Normal(Map(m'))
  {
    hide Normal, NormalAt, SameBase;
    forall x | x in Bases(m) || x in Bases(m')
      ensures x in Bases(m) && x in Bases(m') && NormalAt(m, x) == NormalAt(m', x)
    {
      if x != b {
        SameBaseSame(m, m', x);
      }
    }
    assert Bases(m) == Bases(m');
    NormalExt(m, m');
  }

  lemma LocalAt(m: Ctx, m': Ctx, k: string, x: string)
    requires !KindOf(k).Plain? && KindOf(Base(k)).Plain? && KindOf(x).Plain? && x != Base(k)
    requires forall y :: y != Base(k) && y != k ==> SameAt(m, m', y)
    ensures SameBase(m, m', x)
  {
    hide SameAt;
    assert KindOf(With(x, '-')).Default? && KindOf(With(x, '+')).Append? && KindOf(With(x, '*')).Override?;
    assert Base(With(x, '-')) == x && Base(With(x, '+')) == x && Base(With(x, '*')) == x;
  }

  /** A step that rewrites the modifier key `k` into its base touches no other base. */
  lemma StepIsLocal(m: Ctx, m': Ctx, k: string)
    requires !KindOf(k).Plain? && KindOf(Base(k)).Plain?
    requires forall y :: y != Base(k) && y != k ==> SameAt(m, m', y)
    ensures forall x :: KindOf(x).Plain? && x != Base(k) ==> SameBase(m, m', x)
  {
    hide SameAt, SameBase;
    forall x | KindOf(x).Plain? && x != Base(k)
      ensures SameBase(m, m', x)
    {
      LocalAt(m, m', k, x);
    }
  }

  lemma SameMatching(m: Ctx, m': Ctx, x: string)
    requires SameBase(m, m', x) && With(x, '+') in m && Matching(m, x)
    ensures Matching(m', x)
  {
  }

  lemma AppendAfter(m: Ctx, m': Ctx, b: string, x: string)
    requires WfMap(m) && KindOf(b).Plain? && With(x, '+') in m'
    requires KindOf(x).Plain? && x != b ==> SameBase(m, m', x)
    requires forall x :: x in m' && x != b ==> x in m && m'[x] == m[x]
    requires With(b, '+') in m' ==> Matching(m', b)
    ensures With(x, '*') !in m' && Matching(m', x)
  {
    hide SameBase, Matching;
    assert KindOf(With(x, '+')).Append? && KindOf(With(x, '*')).Override?;
    assert With(x, '+') in m && GoodKey(With(x, '+'));
    if x != b {
      SameMatching(m, m', x);
    }
  }

  /** Well-formedness after a change at one base. */
  lemma WfStep(m: Ctx, m': Ctx, b: string)
    requires Wf(Map(m))
    requires b != "" && KindOf(b).Plain?
    requires forall x :: KindOf(x).Plain? && x != b ==> SameBase(m, m', x)
    requires forall x :: x in m' && x != b ==> x in m && m'[x] == m[x]
    requires b in m' ==> Wf(m'[b])
    requires With(b, '+') in m' ==> Matching(m', b)
    ensures Wf(Map(m'))
  {
    hide SameBase, Matching;
    assert WfMap(m);
    forall x | With(x, '+') in m'
      ensures With(x, '*') !in m' && Matching(m', x)
    {
      AppendAfter(m, m', b, x);
    }
    WfParts(m, m', b);
  }

  lemma WfParts(m: Ctx, m': Ctx, b: string)
    requires Wf(Map(m))
    requires b != "" && KindOf(b).Plain?
    requires forall x :: x in m' && x != b ==> x in m && m'[x] == m[x]
    requires b in m' ==> Wf(m'[b])
    requires forall x :: With(x, '+') in m' ==> With(x, '*') !in m' && Matching(m', x)
    ensures Wf(Map(m'))
  {
    hide Matching;
    assert Base(b) == b;
  }

  /** What a step at base `b` must leave there. */
  ghost predicate Settled(m: Ctx, m': Ctx, b: string) {
    && b in m' && Wf(m'[b])
    && (With(b, '+') in m' ==> Matching(m', b))
    && b in Bases(m) && b in Bases(m') && NormalAt(m, b) == NormalAt(m', b)
  }

  lemma StepKeeps(m: Ctx, m': Ctx, k: string)
    requires Wf(Map(m)) && k in m && !KindOf(k).Plain?
    requires k !in m' && forall y :: y != Base(k) && y != k ==> SameAt(m, m', y)
    requires Settled(m, m', Base(k))
    ensures Wf(Map(m')) && Normal(Map(m')) == Normal(Map(m))
  {
    hide Normal, NormalAt, SameBase, Matching, Bases;
    assert GoodKey(k);
    StepIsLocal(m, m', k);
    assert forall x :: x in m' && x != Base(k) ==> SameAt(m, m', x);
    WfStep(m, m', Base(k));
    GoodKeys(m, m', Base(k));
    OneBaseChanged(m, m', Base(k));
  }

  lemma GoodKeys(m: Ctx, m': Ctx, b: string)
    requires WfMap(m) && b != "" && KindOf(b).Plain?
    requires forall x :: x in m' && x != b ==> x in m
    ensures forall k :: k in m ==> GoodKey(k)
    ensures forall k :: k in m' ==> GoodKey(k)
  {
    hide Matching;
    assert Base(b) == b;
  }

  lemma InBases(m: Ctx, k: string)
    requires k in m
    ensures Base(k) in Bases(m)
  {
  }

  /** A step that leaves the modifiers alone and the value of the base the same. */
  lemma SameMeaning(m: Ctx, m': Ctx, b: string)
    requires b in Bases(m) && b in Bases(m') && SameAt(m, m', With(b, '+')) && SameAt(m, m', With(b, '*'))
    requires DefaultKey(m, b).Some? && DefaultKey(m', b) == Some(b)
    requires var v := m[DefaultKey(m, b).value];
             && Normal(m'[b]) == Normal(v)
             && (m'[b] == v || (m'[b].Map? && v.Map? && (With(b, '+') in m ==> m[With(b, '+')] == Nil)))
    requires With(b, '+') in m ==> Matching(m, b)
    ensures NormalAt(m, b) == NormalAt(m', b)
    ensures With(b, '+') in m' ==> Matching(m', b)
  {
    hide Normal, DefaultKey, Bases, Base;
  }

  lemma DefaultSettles(m: Ctx, k: string)
    requires Wf(Map(m)) && k in m && KindOf(k).Default?
    ensures Settled(m, DefaultStep(m, k), Base(k))
  {
    hide Normal, NormalAt, Bases, Matching;
    var b, m' := Base(k), DefaultStep(m, k);
    KeyIsWith(k);
    assert WfMap(m) && GoodKey(k) && Base(b) == b;
    InBases(m, k);
    InBases(m', b);
    assert SameAt(m, m', With(b, '+')) && SameAt(m, m', With(b, '*'));
    SameMeaning(m, m', b);
  }

  lemma DefaultKeeps(m: Ctx, k: string)
    requires Wf(Map(m)) && k in m && KindOf(k).Default?
    ensures Wf(Map(DefaultStep(m, k))) && Normal(Map(DefaultStep(m, k))) == Normal(Map(m))
  {
    hide Normal, Wf, Settled;
    DefaultSettles(m, k);
    StepKeeps(m, DefaultStep(m, k), k);
  }

  /** Without modifiers left on it, a base stands for its own value. */
  lemma Alone(m: Ctx, b: string)
    requires b in m && KindOf(b).Plain? && With(b, '-') !in m && With(b, '+') !in m && With(b, '*') !in m
    ensures b in Bases(m) && Resolve(m, b) == From(b)
  {
    InBases(m, b);
  }

  /** What an append puts at the base is what the base stood for. */
  lemma AppendMeaning(m: Ctx, k: string)
    requires k in m && KindOf(k).Append? && k == With(Base(k), '+') && Base(k) in Bases(m)
    requires With(Base(k), '-') !in m && With(Base(k), '*') !in m && Matching(m, Base(k))
    requires KindOf(Base(k)).Plain?
    ensures Base(k) in AppendStep(m, k) && NormalAt(m, Base(k)) == Normal(AppendStep(m, k)[Base(k)])
    ensures AppendStep(m, k)[Base(k)] == m[k]
            || (Base(k) in m && AppendStep(m, k)[Base(k)] == m[Base(k)])
            || !AppendStep(m, k)[Base(k)].Map?
  {
    hide Bases;
  }

  lemma AppendSettles(m: Ctx, k: string)
    requires Wf(Map(m)) && k in m && KindOf(k).Append? && With(Base(k), '-') !in m
    ensures Settled(m, AppendStep(m, k), Base(k))
  {
    hide Bases, Matching, Normal;
    var b, m' := Base(k), AppendStep(m, k);
    KeyIsWith(k);
    assert WfMap(m) && GoodKey(k);
    InBases(m, k);
    AppendMeaning(m, k);
    Alone(m', b);
    CleanIsWf(m[k]);
  }

  lemma AppendKeeps(m: Ctx, k: string)
    requires Wf(Map(m)) && k in m && KindOf(k).Append? && With(Base(k), '-') !in m
    ensures Wf(Map(AppendStep(m, k))) && Normal(Map(AppendStep(m, k))) == Normal(Map(m))
  {
    hide Normal, Wf, Settled;
    AppendSettles(m, k);
    StepKeeps(m, AppendStep(m, k), k);
  }

  lemma OverrideSettles(m: Ctx, k: string)
    requires Wf(Map(m)) && k in m && KindOf(k).Override? && With(Base(k), '-') !in m
    ensures Settled(m, OverrideStep(m, k), Base(k))
  {
    hide Normal;
    var b, m' := Base(k), OverrideStep(m, k);
    KeyIsWith(k);
    assert GoodKey(k);
    InBases(m, k);
    Alone(m', b);
    CleanIsWf(m[k]);
  }

  lemma OverrideKeeps(m: Ctx, k: string)
    requires Wf(Map(m)) && k in m && KindOf(k).Override? && With(Base(k), '-') !in m
    ensures Wf(Map(OverrideStep(m, k))) && Normal(Map(OverrideStep(m, k))) == Normal(Map(m))
  {
    hide Normal, Wf, Settled;
    OverrideSettles(m, k);
    StepKeeps(m, OverrideStep(m, k), k);
  }

  /** A nested map may be replaced by its normal form. */
  lemma NestedSettles(m: Ctx, k: string, v: Value)
    requires Wf(Map(m)) && k in m && KindOf(k).Plain? && m[k].Map?
    requires v.Map? && Wf(v) && Normal(v) == Normal(m[k])
    ensures Settled(m, m[k := v], k)
  {
    hide Normal, NormalAt, Bases, Wf;
    var m' := m[k := v];
    assert Base(k) == k;
    InBases(m, k);
    InBases(m', k);
    assert DefaultKey(m, k) == DefaultKey(m', k) == Some(k);
    assert With(k, '+') in m ==> Matching(m, k) by {
      Matches(m, k);
    }
    SameMeaning(m, m', k);
  }

  lemma Matches(m: Ctx, b: string)
    requires Wf(Map(m))
    ensures With(b, '+') in m ==> Matching(m, b)
  {
    hide Matching;
    assert WfMap(m);
  }

  lemma NestedKeeps(m: Ctx, k: string)
    requires Wf(Map(m)) && k in m && KindOf(k).Plain? && m[k].Map?
    ensures Normal(m[k]).Map?
    ensures Wf(Map(m[k := Normal(m[k])])) && Normal(Map(m[k := Normal(m[k])])) == Normal(Map(m))
  {
    var v := Normal(m[k]);
    NormalTwice(m[k]);
    NormalIsClean(m[k]);
    CleanIsWf(v);
    NestedSettles(m, k, v);
    PlainKeeps(m, k, v);
  }

  lemma OnlyHere(m: Ctx, k: string, v: Value)
    requires KindOf(k).Plain?
    ensures forall x :: KindOf(x).Plain? && x != k ==> SameBase(m, m[k := v], x)
  {
    forall x | KindOf(x).Plain? && x != k
      ensures SameBase(m, m[k := v], x)
    {
      assert KindOf(With(x, '-')).Default? && KindOf(With(x, '+')).Append? && KindOf(With(x, '*')).Override?;
    }
  }

  lemma PlainKeeps(m: Ctx, k: string, v: Value)
    requires Wf(Map(m)) && k in m && KindOf(k).Plain?
    requires Settled(m, m[k := v], k)
    ensures Wf(Map(m[k := v])) && Normal(Map(m[k := v])) == Normal(Map(m))
  {
    hide Normal, NormalAt, Matching, Bases, SameBase;
    var m' := m[k := v];
    assert GoodKey(k) && Base(k) == k;
    OnlyHere(m, k, v);
    WfStep(m, m', k);
    GoodKeys(m, m', k);
    OneBaseChanged(m, m', k);
  }

  // ------------------------------------------------------------------
  // What a merged map holds, key by key
  // ------------------------------------------------------------------

  /** The value of a base before appending and overriding: its own, or else its default. */
  predicate Stands(m: Ctx, b: string, v: Value) {
    || (b in m && m[b] == v && v != Nil)
    || ((b !in m || m[b] == Nil) && b + "-" in m && m[b + "-"] == v)
    || (b in m && m[b] == v == Nil && b + "-" !in m)
  }

  predicate Joined<T(==)>(x: seq<T>, y: seq<T>, z: seq<T>) {
    |z| == |x| + |y| && z[..|x|] == x && z[|x|..] == y
  }

  /** The value of a base in the result, read off the keys `b`, `b-`, `b+` and `b*`. */
  ghost predicate Means(m: Ctx, r: Ctx, b: string) {
    && (b in r <==> b in m || b + "-" in m || b + "+" in m || b + "*" in m)
    && (b + "*" in m ==> r[b] == m[b + "*"])
    && (b + "+" in m && b !in m && b + "-" !in m ==> r[b] == m[b + "+"])
    && (forall v :: b + "*" !in m && Stands(m, b, v) ==>
          if b + "+" !in m || (m[b + "+"] == Nil && v != Nil) then r[b] == Normal(v)
          else if v == Nil then r[b] == m[b + "+"]
          else if v.List? then
            m[b + "+"].List? && r[b].List? && Joined(v.items, m[b + "+"].items, r[b].items)
          else
            v.Str? && m[b + "+"].Str? && r[b].Str? && Joined(v.s, m[b + "+"].s, r[b].s))
  }

  lemma Keys(b: string)
    ensures b + "-" == With(b, '-') && b + "+" == With(b, '+') && b + "*" == With(b, '*')
  {
  }

  lemma ModifiersOf(m: Ctx, b: string)
    requires KindOf(b).Plain?
    ensures b in Bases(m) <==> b in m || b + "-" in m || b + "+" in m || b + "*" in m
  {
    Keys(b);
    assert Base(b) == b;
    if b in Bases(m) {
      KeysOf(m, b);
    }
  }

  /** In a merged map every base holds what its modifiers say, appended values at the end. */
  lemma MergedMeans(m: Ctx, b: string)
    requires Wf(Map(m)) && KindOf(b).Plain?
    ensures Means(m, Normal(Map(m)).fields, b)
  {
    hide Bases, KindOf, Base, Normal, Wf;
    Keys(b);
    ModifiersOf(m, b);
    Matches(m, b);
    NormalFields(m);
    CleanModifiers(m, b);
  }

  lemma NormalFields(m: Ctx)
    ensures Normal(Map(m)).Map? && Normal(Map(m)).fields.Keys == Bases(m)
    ensures forall b :: b in Bases(m) ==> Normal(Map(m)).fields[b] == NormalAt(m, b)
  {
  }

  lemma CleanModifiers(m: Ctx, b: string)
    requires Wf(Map(m))
    ensures With(b, '+') in m ==> Normal(m[With(b, '+')]) == m[With(b, '+')]
    ensures With(b, '*') in m ==> Normal(m[With(b, '*')]) == m[With(b, '*')]
    ensures With(b, '+') in m ==> With(b, '*') !in m
  {
    assert WfMap(m);
    assert KindOf(With(b, '+')).Append? && KindOf(With(b, '*')).Override?;
    if With(b, '+') in m {
      CleanIsNormal(m[With(b, '+')]);
    }
    if With(b, '*') in m {
      CleanIsNormal(m[With(b, '*')]);
    }
  }

  // ------------------------------------------------------------------
  // The program's loops
  // ------------------------------------------------------------------

  function Defaults(m: Ctx): set<string> {
    set k | k in m && KindOf(k).Default?
  }

  /** Every value is one of those the map started with. */
  ghost predicate Within(dst: Ctx, values: set<Value>) {
    forall k :: k in dst ==> dst[k] in values
  }

  function Modified(m: Ctx): set<string> {
    set k | k in m && !KindOf(k).Plain?
  }

  /**
   The first loop. A range over a map yields each key that is there when its turn comes, in
   any order; a key inserted meanwhile may or may not be yielded.
   */
  method ApplyDefaults(m: Ctx) returns (dst: Ctx)
    requires Wf(Map(m))
    ensures Wf(Map(dst)) && Normal(Map(dst)) == Normal(Map(m))
    ensures Defaults(dst) == {}
    ensures Within(dst, m.Values)
  {
    hide Normal, Wf, KindOf, Base;
    dst := m;
    var pending := m.Keys;
    while pending * dst.Keys != {}
      invariant Wf(Map(dst)) && Normal(Map(dst)) == Normal(Map(m))
      invariant Defaults(dst) <= pending
      invariant Within(dst, m.Values)
      decreases Defaults(dst), pending
    {
      hide Within;
      var k :| k in pending && k in dst;
      pending := pending - {k};
      if KindOf(k).Default? {
        DefaultKeeps(dst, k);
        DefaultShrinks(dst, k, m.Values);
        var b, next := Base(k), dst;
        if b !in dst || dst[b] == Nil {
          var yielded: bool := *;
          if b !in dst && yielded {
            pending := pending + {b};
          }
          next := next[b := dst[k]];
        }
        next := next - {k};
        assert next == DefaultStep(dst, k);
        dst := next;
      }
    }
  }

  lemma DefaultShrinks(m: Ctx, k: string, values: set<Value>)
    requires Wf(Map(m)) && k in m && KindOf(k).Default? && Within(m, values)
    ensures Defaults(DefaultStep(m, k)) == Defaults(m) - {k} && k in Defaults(m)
    ensures Within(DefaultStep(m, k), values)
  {
    assert GoodKey(k);
  }

  /** What has been yielded is final; what has not is still one of the values at the start. */
  ghost predicate Progress(dst: Ctx, pending: set<string>, values: set<Value>) {
    && Defaults(dst) == {}
    && Modified(dst) <= pending
    && (forall k :: k in dst && k !in pending ==> Normal(dst[k]) == dst[k])
    && (forall k :: k in dst && k in pending && dst[k].Map? ==> dst[k] in values)
  }

  lemma NoDefault(m: Ctx, b: string)
    requires Defaults(m) == {}
    ensures With(b, '-') !in m
  {
    assert KindOf(With(b, '-')).Default?;
    assert With(b, '-') in m ==> With(b, '-') in Defaults(m);
  }

  /** The base after an append: one of the two values as they were, or a longer string or list. */
  lemma Appended(m: Ctx, k: string)
    requires Wf(Map(m)) && k in m && KindOf(k).Append? && With(Base(k), '-') !in m
    ensures var b, m' := Base(k), AppendStep(m, k);
            && b in m' && b != k && KindOf(b).Plain? && k == With(b, '+')
            && m'.Keys == m.Keys + {b} - {k}
            && (forall x :: x in m' && x != b ==> m'[x] == m[x])
            && (m'[b] == m[k] || (b in m && m'[b] == m[b]) || !m'[b].Map?)
            && (b in m && m[b].Map? ==> m'[b] == m[b])
    ensures Normal(m[k]) == m[k]
  {
    hide Bases, Normal;
    KeyIsWith(k);
    Matches(m, Base(k));
    assert WfMap(m) && GoodKey(k);
    CleanIsNormal(m[k]);
  }

  lemma FlatIsNormal(v: Value)
    requires !v.Map?
    ensures Normal(v) == v
  {
  }

  lemma AppendProgress(m: Ctx, k: string, pending: set<string>, later: set<string>, values: set<Value>)
    requires Wf(Map(m)) && Progress(m, pending, values) && k in m && k in pending && KindOf(k).Append?
    requires later == pending - {k} || (Base(k) !in m && later == pending - {k} + {Base(k)})
    ensures Progress(AppendStep(m, k), later, values)
    ensures Modified(AppendStep(m, k)) == Modified(m) - {k} && k in Modified(m)
  {
    hide Wf, Normal, AppendStep, Base, KindOf, Defaults, Modified;
    var b, m' := Base(k), AppendStep(m, k);
    NoDefault(m, b);
    Appended(m, k);
    ModifiedShrinks(m, m', k);
    if !m'[b].Map? {
      FlatIsNormal(m'[b]);
    }
  }

  lemma ModifiedShrinks(m: Ctx, m': Ctx, k: string)
    requires k in m && !KindOf(k).Plain? && KindOf(Base(k)).Plain?
    requires m'.Keys == m.Keys + {Base(k)} - {k}
    ensures Modified(m') == Modified(m) - {k} && k in Modified(m)
    ensures Defaults(m) == {} ==> Defaults(m') == {}
  {
    forall x | x in Defaults(m')
      ensures x in Defaults(m)
    {
    }
  }

  lemma OverrideProgress(m: Ctx, k: string, pending: set<string>, later: set<string>, values: set<Value>)
    requires Wf(Map(m)) && Progress(m, pending, values) && k in m && k in pending && KindOf(k).Override?
    requires later == pending - {k} || (Base(k) !in m && later == pending - {k} + {Base(k)})
    ensures Progress(OverrideStep(m, k), later, values)
    ensures Modified(OverrideStep(m, k)) == Modified(m) - {k} && k in Modified(m)
  {
    assert GoodKey(k);
    CleanIsNormal(m[k]);
    ModifiedShrinks(m, OverrideStep(m, k), k);
  }

  lemma NestedProgress(m: Ctx, k: string, pending: set<string>, v: Value, values: set<Value>)
    requires Progress(m, pending, values) && k in m && KindOf(k).Plain? && Normal(v) == v
    ensures Progress(m[k := v], pending - {k}, values)
    ensures Modified(m[k := v]) == Modified(m)
  {
    assert m[k := v].Keys == m.Keys;
    assert Defaults(m[k := v]) == Defaults(m);
  }

  /**
   Both loops, in every order of the range. The result is the declared meaning, so it does not
   depend on the order.
   */
  method Merge(m: Ctx) returns (dst: Ctx)
    requires Wf(Map(m))
    ensures Map(dst) == Normal(Map(m))
    ensures forall b :: KindOf(b).Plain? ==> Means(m, dst, b)
    decreases Map(m)
  {
    hide Means;
    dst := ApplyDefaults(m);
    var pending := dst.Keys;
    while pending * dst.Keys != {}
      invariant Wf(Map(dst)) && Normal(Map(dst)) == Normal(Map(m))
      invariant Progress(dst, pending, m.Values)
      decreases Modified(dst), pending
    {
      hide Normal, Wf, KindOf;
      var k :| k in pending && k in dst;
      var b, yielded: bool := Base(k), *;
      var later := if b !in dst && yielded then pending - {k} + {b} else pending - {k};
      if KindOf(k).Append? {
        NoDefault(dst, b);
        AppendKeeps(dst, k);
        AppendProgress(dst, k, pending, later, m.Values);
        dst := AppendAt(dst, k);
      } else if KindOf(k).Override? {
        NoDefault(dst, b);
        OverrideKeeps(dst, k);
        OverrideProgress(dst, k, pending, later, m.Values);
        dst := dst[b := dst[k]];
        dst := dst - {k};
      } else {
        PlainKey(dst, k);
        later := pending - {k};
        if dst[k].Map? {
          NestedKeeps(dst, k);
          NestedFixed(dst, k);
          NestedProgress(dst, k, pending, Normal(dst[k]), m.Values);
          Smaller(m, dst[k]);
          var nested := Merge(dst[k].fields);
          dst := dst[k := Map(nested)];
        } else {
          ScalarProgress(dst, k, pending, m.Values);
        }
      }
      pending := later;
    }
    Finished(dst, pending, m.Values);
    forall b | KindOf(b).Plain?
      ensures Means(m, dst, b)
    {
      MergedMeans(m, b);
    }
  }

  /** The append, as the program writes it. */
  method AppendAt(m: Ctx, k: string) returns (dst: Ctx)
    requires k in m && KindOf(k).Append?
    ensures dst == AppendStep(m, k)
  {
    var b := Base(k);
    dst := m;
    if b !in m || m[b] == Nil {
      dst := dst[b := m[k]];
    } else if m[k] != Nil {
      dst := dst[b := Append2(m[b], m[k])];
    }
    dst := dst - {k};
  }

  lemma PlainKey(m: Ctx, k: string)
    requires k in m && Defaults(m) == {} && !KindOf(k).Append? && !KindOf(k).Override?
    ensures KindOf(k).Plain?
  {
    assert KindOf(k).Default? ==> k in Defaults(m);
  }

  lemma NestedFixed(m: Ctx, k: string)
    requires Wf(Map(m)) && k in m && m[k].Map?
    ensures Wf(m[k]) && Normal(Normal(m[k])) == Normal(m[k])
  {
    NormalTwice(m[k]);
  }

  lemma Smaller(m: Ctx, v: Value)
    requires v in m.Values
    ensures v < Map(m)
  {
    var k :| k in m && m[k] == v;
    assert m[k] < Map(m);
  }

  lemma ScalarProgress(m: Ctx, k: string, pending: set<string>, values: set<Value>)
    requires Progress(m, pending, values) && k in m && KindOf(k).Plain? && !m[k].Map?
    ensures Progress(m, pending - {k}, values)
  {
  }

  lemma Finished(dst: Ctx, pending: set<string>, values: set<Value>)
    requires Progress(dst, pending, values) && pending * dst.Keys == {}
    ensures Normal(Map(dst)) == Map(dst)
  {
    forall k | k in dst
      ensures KindOf(k).Plain? && Normal(dst[k]) == dst[k]
    {
      assert !KindOf(k).Plain? ==> k in Modified(dst);
      assert k in pending ==> k in pending * dst.Keys;
    }
    PlainNormal(dst);
  }
}
