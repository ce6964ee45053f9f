/** What tuning leaves alone: a tuned strategy dumps as the base strategy's dump with the writes made, and nothing
 * else.
 */
module Tuning {
  import opened Numeric
  import opened Strategy
  import opened StrategyJson
  import opened StrategyParams

  /** `j` is `base` with some of its parts replaced by numbers. */
  predicate Overlaid(base: Json, j: Json) {
    || j.Number?
    || j == base
    || (base.List? && j.List? && |base.items| == |j.items| && forall i | 0 <= i < |j.items| ::
      Overlaid(base.items[i], j.items[i]))
    || (base.Obj? && j.Obj? && base.fields.Keys == j.fields.Keys && forall key | key in j.fields ::
      Overlaid(base.fields[key], j.fields[key]))
  }

  lemma OverlaidChild(base: Json, j: Json, key: Key)
    requires Overlaid(base, j) && HasKey(j, key)
    ensures HasKey(base, key) && Overlaid(Child(base, key), Child(j, key))
  {
  }

  lemma OverlaidReplaced(base: Json, j: Json, key: Key, child: Json)
    requires Overlaid(base, j) && HasKey(j, key) && HasKey(base, key) && Overlaid(Child(base, key), child)
    ensures Overlaid(base, Replaced(j, key, child))
  {
    forall other | HasKey(j, other)
      ensures HasKey(base, other) && Overlaid(Child(base, other), Child(j, other))
    {
      OverlaidChild(base, j, other);
    }
    match key
    case Name(name) =>
      forall k | k in Replaced(j, key, child).fields
        ensures Overlaid(base.fields[k], Replaced(j, key, child).fields[k])
      {
        assert HasKey(j, Name(k)) && Child(j, Name(k)) == j.fields[k];
      }
    case At(index) =>
      forall i | 0 <= i < |j.items|
        ensures Overlaid(base.items[i], Replaced(j, key, child).items[i])
      {
        assert HasKey(j, At(i)) && Child(j, At(i)) == j.items[i];
      }
  }

  lemma {:induction false} SetPathOverlays(base: Json, j: Json, segments: seq<string>, x: real)
    requires segments != [] && Overlaid(base, j) && SetPath(j, segments, Number(x)).Ok?
    ensures Overlaid(base, SetPath(j, segments, Number(x)).value)
    decreases |segments|
  {
    hide KeyOf, Overlaid, Replaced, HasKey;
    var key := KeyOf(j, segments[0]).value;
    OverlaidChild(base, j, key);
    if |segments| == 1 {
      NumberOverlays(Child(base, key), x);
      OverlaidReplaced(base, j, key, Number(x));
    } else {
      SetPathOverlays(Child(base, key), Child(j, key), segments[1..], x);
      OverlaidReplaced(base, j, key, SetPath(Child(j, key), segments[1..], Number(x)).value);
    }
  }

  lemma NumberOverlays(base: Json, x: real)
    ensures Overlaid(base, Number(x))
  {
  }

  lemma {:induction false} SetAllOverlays(base: Json, j: Json, paths: seq<string>, x: real)
    requires Overlaid(base, j) && SetAll(j, paths, x).Ok?
    ensures Overlaid(base, SetAll(j, paths, x).value)
    decreases |paths|
  {
    hide Overlaid, SetPath, Split;
    if paths != [] {
      SetPathOverlays(base, j, Split(paths[0]), x);
      SetAllOverlays(base, SetPath(j, Split(paths[0]), Number(x)).value, paths[1..], x);
    }
  }

  lemma {:induction false} WriteAllOverlays(base: Json, j: Json, parameters: seq<SearchParameter>, values: Values)
    requires Overlaid(base, j) && WriteAll(j, parameters, values).Ok?
    ensures Overlaid(base, WriteAll(j, parameters, values).value)
    decreases |parameters|
  {
    hide Overlaid, SetAll, Written;
    if parameters != [] {
      var p := parameters[0];
      var x := Written(p, values[p.name]);
      SetAllOverlays(base, j, p.paths, x);
      WriteAllOverlays(base, SetAll(j, p.paths, x).value, parameters[1..], values);
    }
  }

  // A document over a dump that validates is the dump of what it validates to.

  lemma {:induction false} NamedKind(text: string, among: seq<OperandKind>)
    requires KindNamed(text, among).Some?
    ensures KindName(KindNamed(text, among).value) == text
  {
    hide KindName;
    if KindName(among[0]) != text {
      NamedKind(text, among[1..]);
    }
  }

  lemma SameFields(j: Json, k: Json)
    requires j.Obj? && k.Obj? && j.fields.Keys == k.fields.Keys
    requires forall name | name in j.fields :: Field(j, name) == Field(k, name)
    ensures j == k
  {
    assert forall name | name in j.fields ::
      Field(j, name) == Some(j.fields[name]) && Field(k, name) == Some(k.fields[name]);
    assert j.fields == k.fields;
  }

  lemma OverlaidField(base: Json, j: Json, name: string)
    requires Overlaid(base, j) && j.Obj?
    ensures base.Obj? && base.fields.Keys == j.fields.Keys
    ensures Field(j, name).Some? ==> Field(base, name).Some? && Overlaid(Field(base, name).value, Field(j, name).value)
  {
  }

  lemma OptionalsReadBack(j: Json)
    ensures ReadOptionalInt(Some(j)).Some? ==> DumpInt(ReadOptionalInt(Some(j)).value) == j
    ensures ReadOptionalNumber(Some(j)).Some? ==> DumpNumber(ReadOptionalNumber(Some(j)).value) == j
    ensures ReadInt(j).Some? ==> Number(ReadInt(j).value as real) == j
  {
  }

  lemma OperandKeys(o: Operand)
    ensures DumpOperand(o).Obj? && DumpOperand(o).fields.Keys == {"kind", "period", "value"}
    ensures Field(DumpOperand(o), "kind") == Some(Str(KindName(o.kind)))
    ensures Field(DumpOperand(o), "period") == Some(DumpInt(o.period))
            && Field(DumpOperand(o), "value") == Some(DumpNumber(o.value))
  {
    hide KindName, DumpInt, DumpNumber;
  }

  lemma OperandReadBack(base: Operand, j: Json)
    requires Overlaid(DumpOperand(base), j) && ReadOperand(j).Some?
    ensures DumpOperand(ReadOperand(j).value) == j
  {
    var o := ReadOperand(j).value;
    OperandKeys(base);
    OperandKeys(o);
    OverlaidField(DumpOperand(base), j, "kind");
    NamedKind(Field(j, "kind").value.text, KINDS);
    assert "period" in j.fields && "value" in j.fields;
    OptionalsReadBack(j.fields["period"]);
    OptionalsReadBack(j.fields["value"]);
    hide KindName, KindNamed, DumpOperand, Overlaid, ValidOperand;
    SameFields(DumpOperand(o), j);
  }

  lemma ConditionKeys(c: Condition)
    ensures DumpCondition(c).Obj? && DumpCondition(c).fields.Keys == {"left", "comparison", "right"}
  {
  }

  lemma NamedComparison(text: string)
    requires ComparisonNamed(text).Some?
    ensures ComparisonName(ComparisonNamed(text).value) == text
  {
  }

  lemma ConditionReadBack(base: Condition, j: Json)
    requires Overlaid(DumpCondition(base), j) && ReadCondition(j).Some?
    ensures DumpCondition(ReadCondition(j).value) == j
  {
    var c := ReadCondition(j).value;
    ConditionKeys(base);
    ConditionKeys(c);
    ConditionFields(base);
    ConditionFields(c);
    OverlaidField(DumpCondition(base), j, "left");
    OverlaidField(DumpCondition(base), j, "right");
    hide DumpCondition, Overlaid, DumpOperand, ReadOperand, ComparisonName, ComparisonNamed;
    OperandReadBack(base.left, Field(j, "left").value);
    OperandReadBack(base.right, Field(j, "right").value);
    NamedComparison(Field(j, "comparison").value.text);
    SameFields(DumpCondition(c), j);
  }

  lemma {:induction false} ConditionsReadBack(base: seq<Condition>, items: seq<Json>)
    requires |base| == |items| && |DumpConditions(base)| == |items|
    requires forall i | 0 <= i < |items| :: Overlaid(DumpConditions(base)[i], items[i])
    requires ReadConditions(items).Some?
    ensures DumpConditions(ReadConditions(items).value) == items
  {
    if items != [] {
      var rest := DumpConditions(base[1..]);
      assert DumpConditions(base) == [DumpCondition(base[0])] + rest;
      assert forall i | 0 <= i < |rest| :: rest[i] == DumpConditions(base)[i + 1];
      hide Overlaid, DumpCondition, ReadCondition;
      ConditionReadBack(base[0], items[0]);
      ConditionsReadBack(base[1..], items[1..]);
      assert items == [items[0]] + items[1..];
    }
  }

  lemma {:induction false} DumpConditionsLength(conditions: seq<Condition>)
    ensures |DumpConditions(conditions)| == |conditions|
  {
    if conditions != [] {
      DumpConditionsLength(conditions[1..]);
    }
  }

  lemma RulesReadBack(base: seq<Condition>, j: Json)
    requires Overlaid(List(DumpConditions(base)), j) && ReadRules(Some(j)).Some?
    ensures List(DumpConditions(ReadRules(Some(j)).value)) == j
  {
    DumpConditionsLength(base);
    forall i | 0 <= i < |j.items|
      ensures Overlaid(DumpConditions(base)[i], j.items[i])
    {
    }
    ConditionsReadBack(base, j.items);
  }

  lemma DefinitionKeys(s: Definition)
    ensures Dump(s).Obj?
    ensures Dump(s).fields.Keys ==
            {"name", "description", "entry", "exit", "stop_loss_atr", "take_profit_atr", "atr_period"}
  {
    hide DumpConditions, DumpNumber;
  }

  lemma KeyPresent(j: Json, name: string)
    requires j.Obj? && name in j.fields
    ensures Field(j, name) == Some(j.fields[name])
  {
  }

  lemma TextsReadBack(base: Definition, j: Json)
    requires Overlaid(Dump(base), j) && Read(j).Some?
    ensures Field(Dump(Read(j).value), "name") == Field(j, "name")
            && Field(Dump(Read(j).value), "description") == Field(j, "description")
  {
    DefinitionKeys(base);
    OverlaidField(Dump(base), j, "name");
    hide Dump, Overlaid, DumpConditions, ReadRules, ReadOptionalNumber, DumpNumber, ValidDefinition, ReadAtrPeriod;
    KeyPresent(j, "description");
    RuleFields(Read(j).value);
  }

  lemma BothRulesReadBack(base: Definition, j: Json)
    requires Overlaid(Dump(base), j) && Read(j).Some?
    ensures Field(Dump(Read(j).value), "entry") == Field(j, "entry")
            && Field(Dump(Read(j).value), "exit") == Field(j, "exit")
  {
    RuleFields(base);
    OverlaidField(Dump(base), j, "entry");
    OverlaidField(Dump(base), j, "exit");
    hide Dump, Overlaid, DumpConditions, ReadOptionalNumber, DumpNumber, ValidDefinition, ReadAtrPeriod, ReadText,
      ReadDescription, Field;
    RulesReadBack(base.entry, Field(j, "entry").value);
    RulesReadBack(base.exit, Field(j, "exit").value);
    RuleFields(Read(j).value);
  }

  lemma BracketsReadBack(base: Definition, j: Json)
    requires Overlaid(Dump(base), j) && Read(j).Some?
    ensures Field(Dump(Read(j).value), "stop_loss_atr") == Field(j, "stop_loss_atr")
    ensures Field(Dump(Read(j).value), "take_profit_atr") == Field(j, "take_profit_atr")
    ensures Field(Dump(Read(j).value), "atr_period") == Field(j, "atr_period")
  {
    DefinitionKeys(base);
    OverlaidField(Dump(base), j, "atr_period");
    KeyPresent(j, "stop_loss_atr");
    KeyPresent(j, "take_profit_atr");
    KeyPresent(j, "atr_period");
    OptionalsReadBack(j.fields["stop_loss_atr"]);
    OptionalsReadBack(j.fields["take_profit_atr"]);
    OptionalsReadBack(j.fields["atr_period"]);
    hide Dump, Overlaid, DumpConditions, ReadRules, ReadOptionalNumber, DumpNumber, ValidDefinition, ReadText,
      ReadDescription, ReadInt, Field;
    BracketFields(Read(j).value);
  }

  lemma SameSevenFields(j: Json, k: Json, a: string, b: string, c: string, d: string, e: string, f: string, g: string)
    requires j.Obj? && k.Obj? && j.fields.Keys == k.fields.Keys == {a, b, c, d, e, f, g}
    requires Field(j, a) == Field(k, a) && Field(j, b) == Field(k, b) && Field(j, c) == Field(k, c)
             && Field(j, d) == Field(k, d)
    requires Field(j, e) == Field(k, e) && Field(j, f) == Field(k, f) && Field(j, g) == Field(k, g)
    ensures j == k
  {
    hide Field;
    SameFields(j, k);
  }

  lemma DefinitionReadBack(base: Definition, j: Json)
    requires Overlaid(Dump(base), j) && Read(j).Some?
    ensures Dump(Read(j).value) == j
  {
    var s := Read(j).value;
    DefinitionKeys(base);
    DefinitionKeys(s);
    OverlaidField(Dump(base), j, "name");
    TextsReadBack(base, j);
    BothRulesReadBack(base, j);
    BracketsReadBack(base, j);
    hide Dump, Overlaid, Read, Field;
    SameSevenFields(Dump(s), j, "name", "description", "entry", "exit", "stop_loss_atr", "take_profit_atr",
      "atr_period");
  }

  /** Tuning changes what is written and nothing else: the tuned strategy's own dump is the base's dump after the
   * writes.
   */
  lemma TunedIsWhatWasWritten(strategy: Definition, parameters: seq<SearchParameter>, values: Values)
    requires Apply(strategy, parameters, values).Ok?
    ensures WriteAll(Dump(strategy), parameters, values) == Ok(Dump(Apply(strategy, parameters, values).value))
  {
    var base := Dump(strategy);
    assert Overlaid(base, base);
    hide Dump, Overlaid, WriteAll, Read;
    WriteAllOverlays(base, base, parameters, values);
    DefinitionReadBack(strategy, WriteAll(base, parameters, values).value);
  }
}
