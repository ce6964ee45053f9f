/** The warm-up of the widest assignment bounds the warm-up of every sampled one. */
module WarmupBound {
  import opened Numeric
  import opened Strategy
  import opened StrategyJson
  import opened StrategyParams

  datatype Spec = Spec(strategy: Definition, parameters: seq<SearchParameter>)

  predicate UniqueNames(parameters: seq<SearchParameter>) {
    forall i, j | 0 <= i < j < |parameters| :: parameters[i].name != parameters[j].name
  }

  function Midpoint(p: SearchParameter): real {
    var middle := (p.low + p.high) / 2.0;
    if p.kind == IntParameter then Truncate(middle) as real else middle
  }

  function Assign(parameters: seq<SearchParameter>, pick: SearchParameter -> real): Values {
    if parameters == [] then map[]
    else
      var last := parameters[|parameters| - 1];
      Assign(parameters[..|parameters| - 1], pick)[last.name := pick(last)]
  }

  function Midpoints(parameters: seq<SearchParameter>): Values { Assign(parameters, Midpoint) }

  function Widest(parameters: seq<SearchParameter>): Values { Assign(parameters, High) }

  function High(p: SearchParameter): real { p.high }

  /** What constructing a specification checks: bounds, names, and that the midpoints apply. */
  predicate ValidSpec(spec: Spec) {
    && ValidDefinition(spec.strategy) && spec.parameters != []
    && (forall p | p in spec.parameters :: ValidParameter(p))
    && UniqueNames(spec.parameters)
    && Apply(spec.strategy, spec.parameters, Midpoints(spec.parameters)).Ok?
  }

  lemma LastNameDiffers(parameters: seq<SearchParameter>, p: SearchParameter)
    requires parameters != [] && UniqueNames(parameters) && p in parameters[..|parameters| - 1]
    ensures p.name != parameters[|parameters| - 1].name
  {
    var front := parameters[..|parameters| - 1];
    var i :| 0 <= i < |front| && front[i] == p;
    assert parameters[i].name != parameters[|front|].name;
  }

  lemma {:induction false} AssignPicks(parameters: seq<SearchParameter>, pick: SearchParameter -> real)
    requires UniqueNames(parameters)
    ensures forall p | p in parameters ::
            p.name in Assign(parameters, pick) && Assign(parameters, pick)[p.name] == pick(p)
  {
    if parameters != [] {
      var front, last := parameters[..|parameters| - 1], parameters[|parameters| - 1];
      assert parameters == front + [last];
      AssignPicks(front, pick);
      hide UniqueNames;
      forall p | p in parameters
        ensures p.name in Assign(parameters, pick) && Assign(parameters, pick)[p.name] == pick(p)
      {
        if p in front {
          LastNameDiffers(parameters, p);
        } else {
          assert p == last;
        }
      }
    }
  }

  /** A value the sampler may draw: an integer between the truncated bounds, or a number between the bounds. */
  predicate InRange(p: SearchParameter, raw: real) {
    if p.kind == IntParameter then raw == raw.Floor as real && Truncate(p.low) <= raw.Floor <= Truncate(p.high)
    else p.low <= raw <= p.high
  }

  predicate Sampled(parameters: seq<SearchParameter>, values: Values) {
    forall p | p in parameters :: p.name in values && InRange(p, values[p.name])
  }

  // Same structure, smaller numbers.

  predicate Below(j: Json, k: Json) {
    match (j, k)
    case (Null, Null) => true
    case (Number(a), Number(b)) => a <= b
    case (Str(a), Str(b)) => a == b
    case (List(xs), List(ys)) => |xs| == |ys| && forall i | 0 <= i < |xs| :: Below(xs[i], ys[i])
    case (Obj(f), Obj(g)) => f.Keys == g.Keys && forall key | key in f :: Below(f[key], g[key])
    case _ => false
  }

  lemma {:induction false} BelowReflexive(j: Json)
    ensures Below(j, j)
  {
    match j
    case List(items) =>
      forall i | 0 <= i < |items|
        ensures Below(items[i], items[i])
      {
        BelowReflexive(items[i]);
      }
    case Obj(fields) =>
      forall key | key in fields
        ensures Below(fields[key], fields[key])
      {
        BelowReflexive(fields[key]);
      }
    case _ =>
  }

  lemma BelowKeys(j: Json, k: Json, segment: string)
    requires Below(j, k)
    ensures KeyOf(j, segment) == KeyOf(k, segment)
    ensures KeyOf(j, segment).Ok? ==> Below(Child(j, KeyOf(j, segment).value), Child(k, KeyOf(k, segment).value))
  {
    hide ParseInt;
  }

  lemma BelowReplaced(j: Json, k: Json, key: Key, c: Json, d: Json)
    requires Below(j, k) && Below(c, d) && HasKey(j, key) && HasKey(k, key)
    ensures Below(Replaced(j, key, c), Replaced(k, key, d))
  {
  }

  /** Writing at the same path succeeds or fails alike, and keeps the order. */
  lemma {:induction false} SetPathKeepsBelow(j: Json, k: Json, segments: seq<string>, v: Json, w: Json)
    requires segments != [] && Below(j, k) && Below(v, w)
    ensures SetPath(j, segments, v).Ok? <==> SetPath(k, segments, w).Ok?
    ensures SetPath(j, segments, v).Ok? ==> Below(SetPath(j, segments, v).value, SetPath(k, segments, w).value)
    decreases |segments|
  {
    hide KeyOf, Below, Replaced, HasKey;
    BelowKeys(j, k, segments[0]);
    var key := KeyOf(j, segments[0]);
    if key.Ok? {
      if |segments| == 1 {
        BelowReplaced(j, k, key.value, v, w);
      } else {
        SetPathKeepsBelow(Child(j, key.value), Child(k, key.value), segments[1..], v, w);
        var c, d := SetPath(Child(j, key.value), segments[1..], v), SetPath(Child(k, key.value), segments[1..], w);
        if c.Ok? {
          BelowReplaced(j, k, key.value, c.value, d.value);
        }
      }
    }
  }

  lemma {:induction false} SetAllKeepsBelow(j: Json, k: Json, paths: seq<string>, x: real, y: real)
    requires Below(j, k) && x <= y
    ensures SetAll(j, paths, x).Ok? <==> SetAll(k, paths, y).Ok?
    ensures SetAll(j, paths, x).Ok? ==> Below(SetAll(j, paths, x).value, SetAll(k, paths, y).value)
    decreases |paths|
  {
    if paths != [] {
      assert Below(Number(x), Number(y));
      hide Below, SetPath, Split;
      SetPathKeepsBelow(j, k, Split(paths[0]), Number(x), Number(y));
      var c, d := SetPath(j, Split(paths[0]), Number(x)), SetPath(k, Split(paths[0]), Number(y));
      if c.Ok? {
        SetAllKeepsBelow(c.value, d.value, paths[1..], x, y);
      }
    }
  }

  /** Every written value is at most the widest one's. */
  predicate Dominated(parameters: seq<SearchParameter>, low: Values, high: Values) {
    forall p | p in parameters :: p.name in low && p.name in high && Written(p, low[p.name]) <= Written(p, high[p.name])
  }

  lemma {:induction false} WriteAllKeepsBelow(j: Json, k: Json, parameters: seq<SearchParameter>, low: Values,
    high: Values)
    requires Below(j, k) && Dominated(parameters, low, high)
    ensures WriteAll(j, parameters, low).Ok? <==> WriteAll(k, parameters, high).Ok?
    ensures WriteAll(j, parameters, low).Ok? ==>
            Below(WriteAll(j, parameters, low).value, WriteAll(k, parameters, high).value)
    decreases |parameters|
  {
    if parameters != [] {
      var p := parameters[0];
      assert p in parameters && Dominated(parameters[1..], low, high);
      hide Below, SetAll, Written;
      var x, y := Written(p, low[p.name]), Written(p, high[p.name]);
      SetAllKeepsBelow(j, k, p.paths, x, y);
      var c, d := SetAll(j, p.paths, x), SetAll(k, p.paths, y);
      if c.Ok? {
        WriteAllKeepsBelow(c.value, d.value, parameters[1..], low, high);
      }
    }
  }

  lemma DrawnBelowHigh(p: SearchParameter, raw: real)
    requires InRange(p, raw)
    ensures Written(p, raw) <= Written(p, p.high)
  {
    if p.kind == IntParameter {
      assert Truncate(raw) == raw.Floor;
    }
  }

  lemma SampledBelowWidest(parameters: seq<SearchParameter>, values: Values)
    requires Sampled(parameters, values) && UniqueNames(parameters)
    ensures Dominated(parameters, values, Widest(parameters))
  {
    AssignPicks(parameters, High);
    hide InRange, Written;
    forall p | p in parameters
      ensures p.name in values && p.name in Widest(parameters)
              && Written(p, values[p.name]) <= Written(p, Widest(parameters)[p.name])
    {
      assert Widest(parameters)[p.name] == High(p);
      DrawnBelowHigh(p, values[p.name]);
    }
  }

  // Reading the two dumps back.

  predicate LighterOperand(o: Operand, p: Operand) {
    o.kind == p.kind && o.period.Some? == p.period.Some? && (o.period.Some? ==> o.period.value <= p.period.value)
  }

  predicate LighterRules(s: seq<Condition>, t: seq<Condition>) {
    |s| == |t| && forall i | 0 <= i < |s| ::
      LighterOperand(s[i].left, t[i].left) && LighterOperand(s[i].right, t[i].right)
  }

  /** The same indicators with no longer a period anywhere. */
  predicate Lighter(s: Definition, t: Definition) {
    && LighterRules(s.entry, t.entry) && LighterRules(s.exit, t.exit)
    && HasBracket(s) == HasBracket(t) && s.atrPeriod <= t.atrPeriod
  }

  lemma FieldBelow(j: Json, k: Json, name: string)
    requires Below(j, k)
    ensures Field(j, name).Some? <==> Field(k, name).Some?
    ensures Field(j, name).Some? ==> Below(Field(j, name).value, Field(k, name).value)
  {
  }

  lemma ReadOperandBelow(j: Json, k: Json)
    requires Below(j, k) && ReadOperand(j).Some? && ReadOperand(k).Some?
    ensures LighterOperand(ReadOperand(j).value, ReadOperand(k).value)
  {
    FieldBelow(j, k, "kind");
    FieldBelow(j, k, "period");
    hide Field, KindNamed;
  }

  lemma ReadConditionBelow(j: Json, k: Json)
    requires Below(j, k) && ReadCondition(j).Some? && ReadCondition(k).Some?
    ensures LighterOperand(ReadCondition(j).value.left, ReadCondition(k).value.left)
    ensures LighterOperand(ReadCondition(j).value.right, ReadCondition(k).value.right)
  {
    FieldBelow(j, k, "left");
    FieldBelow(j, k, "right");
    hide Field, ReadOperand, LighterOperand, Below, ComparisonNamed;
    ReadOperandBelow(Field(j, "left").value, Field(k, "left").value);
    ReadOperandBelow(Field(j, "right").value, Field(k, "right").value);
  }

  lemma LighterCons(c: Condition, d: Condition, s: seq<Condition>, t: seq<Condition>)
    requires LighterOperand(c.left, d.left) && LighterOperand(c.right, d.right) && LighterRules(s, t)
    ensures LighterRules([c] + s, [d] + t)
  {
  }

  lemma {:induction false} ReadConditionsBelow(xs: seq<Json>, ys: seq<Json>)
    requires |xs| == |ys| && (forall i | 0 <= i < |xs| :: Below(xs[i], ys[i]))
    requires ReadConditions(xs).Some? && ReadConditions(ys).Some?
    ensures LighterRules(ReadConditions(xs).value, ReadConditions(ys).value)
  {
    if xs != [] {
      hide Below, ReadCondition, LighterOperand, LighterRules;
      ReadConditionBelow(xs[0], ys[0]);
      ReadConditionsBelow(xs[1..], ys[1..]);
      LighterCons(ReadCondition(xs[0]).value, ReadCondition(ys[0]).value, ReadConditions(xs[1..]).value,
        ReadConditions(ys[1..]).value);
    }
  }

  lemma ReadRulesBelow(j: Json, k: Json, name: string)
    requires Below(j, k) && ReadRules(Field(j, name)).Some? && ReadRules(Field(k, name)).Some?
    ensures LighterRules(ReadRules(Field(j, name)).value, ReadRules(Field(k, name)).value)
  {
    FieldBelow(j, k, name);
    hide Field, LighterRules;
    ReadConditionsBelow(Field(j, name).value.items, Field(k, name).value.items);
  }

  lemma ReadNumbersBelow(j: Json, k: Json, name: string)
    requires Below(j, k)
    ensures var x, y := ReadOptionalNumber(Field(j, name)), ReadOptionalNumber(Field(k, name));
            x.Some? && y.Some? ==> x.value.Some? == y.value.Some?
    ensures var m, n := ReadAtrPeriod(Field(j, name)), ReadAtrPeriod(Field(k, name));
            m.Some? && n.Some? ==> m.value <= n.value
  {
    FieldBelow(j, k, name);
    hide Field;
  }

  lemma ReadBelow(j: Json, k: Json)
    requires Below(j, k) && Read(j).Some? && Read(k).Some?
    ensures Lighter(Read(j).value, Read(k).value)
  {
    hide Field, Below, ReadRules, ReadOptionalNumber, ReadAtrPeriod, ReadText, ReadDescription, ValidDefinition,
      LighterRules;
    ReadRulesBelow(j, k, "entry");
    ReadRulesBelow(j, k, "exit");
    ReadNumbersBelow(j, k, "stop_loss_atr");
    ReadNumbersBelow(j, k, "take_profit_atr");
    ReadNumbersBelow(j, k, "atr_period");
  }

  lemma {:induction false} OperandsBelow(s: seq<Condition>, t: seq<Condition>)
    requires LighterRules(s, t)
    ensures |Operands(s)| == |Operands(t)|
    ensures forall i | 0 <= i < |Operands(s)| :: LighterOperand(Operands(s)[i], Operands(t)[i])
  {
    if s != [] {
      hide LighterOperand;
      OperandsBelow(s[..|s| - 1], t[..|t| - 1]);
    }
  }

  lemma RulesBelow(s: Definition, t: Definition, o: Operand) returns (p: Operand)
    requires Lighter(s, t) && o in Rules(s)
    ensures p in Rules(t) && LighterOperand(o, p)
  {
    assert LighterRules(s.entry + s.exit, t.entry + t.exit);
    OperandsBelow(s.entry + s.exit, t.entry + t.exit);
    hide Operands, LighterOperand;
    var i :| 0 <= i < |Rules(s)| && Rules(s)[i] == o;
    p := Rules(t)[i];
  }

  /** Whatever a lighter strategy needs, the heavier one needs at least as much. */
  lemma NeedGrows(s: Definition, t: Definition, need: int) returns (more: int)
    requires Lighter(s, t) && Needs(s, need)
    ensures Needs(t, more) && need <= more
  {
    hide Rules, Lighter;
    more := need;
    if o :| o in Rules(s) && o.period == Some(need) {
      var p := RulesBelow(s, t, o);
      more := p.period.value;
    } else if need == MACD_WARMUP && exists o | o in Rules(s) :: IsMacd(o.kind) {
      var o :| o in Rules(s) && IsMacd(o.kind);
      var p := RulesBelow(s, t, o);
      assert IsMacd(p.kind);
    } else {
      more := t.atrPeriod;
      LighterBrackets(s, t);
    }
  }

  lemma LighterBrackets(s: Definition, t: Definition)
    requires Lighter(s, t)
    ensures HasBracket(s) == HasBracket(t) && s.atrPeriod <= t.atrPeriod
  {
  }

  /** A lighter strategy needs no longer a warm-up. */
  lemma LighterWarmsUpSooner(s: Definition, t: Definition)
    requires Lighter(s, t) && ValidDefinition(t)
    ensures Warmup(s) <= Warmup(t)
  {
    hide Warmup, Needs, Lighter, ValidDefinition;
    WarmupIsLargestNeed(s, Warmup(s));
    WarmupIsLargestNeed(t, Warmup(t));
    WarmupAtLeastOne(t);
    if Needs(s, Warmup(s)) {
      var more := NeedGrows(s, t, Warmup(s));
    }
  }

  lemma WarmupAtLeastOne(s: Definition)
    requires ValidDefinition(s)
    ensures Warmup(s) >= 1
  {
    WarmupIsLargestNeed(s, Warmup(s));
    if o :| o in Rules(s) && o.period == Some(Warmup(s)) {
      RulesValid(s.entry + s.exit, o);
    }
  }

  lemma {:induction false} RulesValid(conditions: seq<Condition>, o: Operand)
    requires (forall c | c in conditions :: ValidCondition(c)) && o in Operands(conditions)
    ensures ValidOperand(o)
  {
    if conditions != [] {
      var front, last := conditions[..|conditions| - 1], conditions[|conditions| - 1];
      assert conditions == front + [last] && last in conditions;
      if o in Operands(front) {
        RulesValid(front, o);
      }
    }
  }

  // The bound, and what the guard buys.

  /** The optimizer's bound: the widest assignment's warm-up or the base strategy's, whichever is larger. */
  function MaxWarmup(spec: Spec): Outcome<int> {
    var widest := Apply(spec.strategy, spec.parameters, Widest(spec.parameters));
    if widest.Err? then Err(widest.refusal)
    else Ok(if Warmup(widest.value) >= Warmup(spec.strategy) then Warmup(widest.value) else Warmup(spec.strategy))
  }

  /**
   * The warm-up bound is sound: whenever the widest assignment is accepted, no accepted draw within the
   * bounds, over any search space, needs a longer warm-up than `MaxWarmup` says.
   */
  lemma MaxWarmupBoundsEveryTrial(spec: Spec, values: Values)
    requires UniqueNames(spec.parameters) && Sampled(spec.parameters, values)
    requires MaxWarmup(spec).Ok? && Apply(spec.strategy, spec.parameters, values).Ok?
    ensures Warmup(Apply(spec.strategy, spec.parameters, values).value) <= MaxWarmup(spec).value
    ensures MaxWarmup(spec).value >= 1
  {
    hide Read, Dump, Warmup, Below, WriteAll, Lighter, Sampled, UniqueNames, Widest, ValidDefinition, Dominated;
    var base, widest := Dump(spec.strategy), Widest(spec.parameters);
    var j, k := WriteAll(base, spec.parameters, values).value, WriteAll(base, spec.parameters, widest).value;
    BelowReflexive(base);
    SampledBelowWidest(spec.parameters, values);
    WriteAllKeepsBelow(base, base, spec.parameters, values, widest);
    ReadBelow(j, k);
    ReadIsValid(k);
    LighterWarmsUpSooner(Read(j).value, Read(k).value);
    WarmupAtLeastOne(Read(k).value);
  }

  /** And it is no larger than it has to be: the widest assignment or the base strategy itself needs that many bars. */
  lemma MaxWarmupIsNeeded(spec: Spec) returns (widest: Values)
    requires UniqueNames(spec.parameters)
    ensures forall p | p in spec.parameters :: p.name in widest && widest[p.name] == p.high
    ensures MaxWarmup(spec).Ok? <==> Apply(spec.strategy, spec.parameters, widest).Ok?
    ensures MaxWarmup(spec).Ok? ==>
              var base, most := Warmup(spec.strategy), Warmup(Apply(spec.strategy, spec.parameters, widest).value);
              && base <= MaxWarmup(spec).value && most <= MaxWarmup(spec).value
              && MaxWarmup(spec).value in {base, most}
  {
    hide Apply, Warmup;
    widest := Widest(spec.parameters);
    AssignPicks(spec.parameters, High);
  }

  lemma MaxWarmupPositive(spec: Spec)
    requires MaxWarmup(spec).Ok? && ValidDefinition(spec.strategy)
    ensures MaxWarmup(spec).value >= 1
  {
    hide Apply, Warmup, ValidDefinition;
    WarmupAtLeastOne(spec.strategy);
  }

  function Larger(x: real, y: real): real { if x >= y then x else y }

  lemma LargerDominates(p: SearchParameter, x: real, y: real)
    ensures Written(p, x) <= Written(p, Larger(x, y)) && Written(p, y) <= Written(p, Larger(x, y))
  {
    TruncateMonotone(x, Larger(x, y));
    TruncateMonotone(y, Larger(x, y));
  }

  /** Binding is checked once: a specification that was accepted never fails on a path later, whatever values are
   * drawn.
   */
  lemma PathsAlwaysResolve(spec: Spec, values: Values)
    requires ValidSpec(spec) && forall p | p in spec.parameters :: p.name in values
    ensures Apply(spec.strategy, spec.parameters, values).Err? ==>
            Apply(spec.strategy, spec.parameters, values).refusal == InvalidStrategy
  {
    var mid := Midpoints(spec.parameters);
    AssignPicks(spec.parameters, Midpoint);
    hide Read, Dump, WriteAll, Below, UniqueNames, Written, Larger, ValidDefinition, ValidParameter, Midpoints;
    var top: Values := map n | n in mid && n in values :: Larger(mid[n], values[n]);
    forall p | p in spec.parameters
      ensures p.name in mid && p.name in top
      ensures Written(p, mid[p.name]) <= Written(p, top[p.name])
              && Written(p, values[p.name]) <= Written(p, top[p.name])
    {
      LargerDominates(p, mid[p.name], values[p.name]);
    }
    var base := Dump(spec.strategy);
    BelowReflexive(base);
    WriteAllKeepsBelow(base, base, spec.parameters, mid, top);
    WriteAllKeepsBelow(base, base, spec.parameters, values, top);
  }
}
