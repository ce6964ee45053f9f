/** The JSON form of a strategy: dumping, and validating what was dumped. */
module StrategyJson {
  import opened Numeric
  import opened Strategy

  datatype Json =
    | Null
    | Number(value: real)
    | Str(text: string)
    | List(items: seq<Json>)
    | Obj(fields: map<string, Json>)

  function KindName(k: OperandKind): string {
    match k
    case OpenPrice => "open"
    case HighPrice => "high"
    case LowPrice => "low"
    case ClosePrice => "close"
    case Volume => "volume"
    case Constant => "constant"
    case Sma => "sma"
    case Ema => "ema"
    case Rsi => "rsi"
    case Atr => "atr"
    case MacdLine => "macd_line"
    case MacdSignal => "macd_signal"
    case BollingerUpper => "bollinger_upper"
    case BollingerMiddle => "bollinger_middle"
    case BollingerLower => "bollinger_lower"
  }

  const KINDS: seq<OperandKind> :=
    [OpenPrice, HighPrice, LowPrice, ClosePrice, Volume, Constant, Sma, Ema, Rsi, Atr, MacdLine, MacdSignal,
     BollingerUpper, BollingerMiddle, BollingerLower]

  function KindNamed(text: string, among: seq<OperandKind>): Option<OperandKind> {
    if among == [] then None
    else if KindName(among[0]) == text then Some(among[0])
    else KindNamed(text, among[1..])
  }

  function ComparisonName(c: Comparison): string {
    match c
    case Gt => "gt"
    case Lt => "lt"
    case CrossesAbove => "crosses_above"
    case CrossesBelow => "crosses_below"
  }

  function ComparisonNamed(text: string): Option<Comparison> {
    if text == "gt" then Some(Gt)
    else if text == "lt" then Some(Lt)
    else if text == "crosses_above" then Some(CrossesAbove)
    else if text == "crosses_below" then Some(CrossesBelow)
    else None
  }

  // Dumping.

  function DumpNumber(x: Option<real>): Json { if x.Some? then Number(x.value) else Null }

  function DumpInt(n: Option<int>): Json { if n.Some? then Number(n.value as real) else Null }

  function DumpOperand(o: Operand): Json {
    Obj(map["kind" := Str(KindName(o.kind)), "period" := DumpInt(o.period), "value" := DumpNumber(o.value)])
  }

  function DumpCondition(c: Condition): Json {
    Obj(map["left" := DumpOperand(c.left), "comparison" := Str(ComparisonName(c.comparison)),
            "right" := DumpOperand(c.right)])
  }

  function DumpConditions(conditions: seq<Condition>): seq<Json> {
    if conditions == [] then [] else [DumpCondition(conditions[0])] + DumpConditions(conditions[1..])
  }

  function Dump(s: Definition): Json {
    Obj(map["name" := Str(s.name), "description" := Str(s.description),
            "entry" := List(DumpConditions(s.entry)), "exit" := List(DumpConditions(s.exit)),
            "stop_loss_atr" := DumpNumber(s.stopLossAtr), "take_profit_atr" := DumpNumber(s.takeProfitAtr),
            "atr_period" := Number(s.atrPeriod as real)])
  }

  // Validating. Each reader returns nothing when validation would raise.

  function Field(j: Json, name: string): Option<Json> {
    if j.Obj? && name in j.fields then Some(j.fields[name]) else None
  }

  function ReadText(j: Option<Json>): Option<string> {
    if j.Some? && j.value.Str? then Some(j.value.text) else None
  }

  /** An integer field takes a number only when it has no fractional part. */
  function ReadInt(j: Json): Option<int> {
    if j.Number? && j.value == j.value.Floor as real then Some(j.value.Floor) else None
  }

  /** An optional field: absent or null is no value; the outer `None` is a refusal. */
  function ReadOptionalInt(j: Option<Json>): Option<Option<int>> {
    if j.None? || j.value.Null? then Some(None)
    else
      var n := ReadInt(j.value);
      if n.Some? then Some(n) else None
  }

  function ReadOptionalNumber(j: Option<Json>): Option<Option<real>> {
    if j.None? || j.value.Null? then Some(None)
    else if j.value.Number? then Some(Some(j.value.value))
    else None
  }

  function ReadOperand(j: Json): Option<Operand> {
    var name, period, value :=
      ReadText(Field(j, "kind")), ReadOptionalInt(Field(j, "period")), ReadOptionalNumber(Field(j, "value"));
    if name.None? || period.None? || value.None? then None
    else
      var kind := KindNamed(name.value, KINDS);
      if kind.Some? && ValidOperand(Operand(kind.value, period.value, value.value)) then
        Some(Operand(kind.value, period.value, value.value))
      else None
  }

  function ReadCondition(j: Json): Option<Condition> {
    var left, name, right := Field(j, "left"), ReadText(Field(j, "comparison")), Field(j, "right");
    if left.None? || name.None? || right.None? then None
    else
      var l, comparison, r := ReadOperand(left.value), ComparisonNamed(name.value), ReadOperand(right.value);
      if l.Some? && comparison.Some? && r.Some? then Some(Condition(l.value, comparison.value, r.value)) else None
  }

  function ReadConditions(items: seq<Json>): Option<seq<Condition>> {
    if items == [] then Some([])
    else
      var first, rest := ReadCondition(items[0]), ReadConditions(items[1..]);
      if first.Some? && rest.Some? then Some([first.value] + rest.value) else None
  }

  function ReadRules(j: Option<Json>): Option<seq<Condition>> {
    if j.Some? && j.value.List? && j.value.items != [] then ReadConditions(j.value.items) else None
  }

  const DEFAULT_ATR_PERIOD := 14

  function ReadAtrPeriod(j: Option<Json>): Option<int> {
    if j.None? then Some(DEFAULT_ATR_PERIOD) else ReadInt(j.value)
  }

  function ReadDescription(j: Option<Json>): Option<string> {
    if j.None? then Some("") else ReadText(j)
  }

  /** Re-validation of a dump: a strategy, or a refusal. */
  function Read(j: Json): Option<Definition> {
    var name, description := ReadText(Field(j, "name")), ReadDescription(Field(j, "description"));
    var entry, exit := ReadRules(Field(j, "entry")), ReadRules(Field(j, "exit"));
    var stop, take := ReadOptionalNumber(Field(j, "stop_loss_atr")), ReadOptionalNumber(Field(j, "take_profit_atr"));
    var period := ReadAtrPeriod(Field(j, "atr_period"));
    if name.None? || description.None? || entry.None? || exit.None? || stop.None? || take.None?
      || period.None? then None
    else
      var s := Definition(name.value, description.value, entry.value, exit.value, stop.value, take.value, period.value);
      if ValidDefinition(s) then Some(s) else None
  }

  lemma KindRoundTrips(k: OperandKind)
    ensures KindNamed(KindName(k), KINDS) == Some(k)
  {
    var i := KindIndex(k);
    assert KINDS[i] == k;
    KindFound(k, KINDS, i);
  }

  function KindIndex(k: OperandKind): (i: nat)
    ensures i < |KINDS| && KINDS[i] == k
  {
    match k
    case OpenPrice => 0
    case HighPrice => 1
    case LowPrice => 2
    case ClosePrice => 3
    case Volume => 4
    case Constant => 5
    case Sma => 6
    case Ema => 7
    case Rsi => 8
    case Atr => 9
    case MacdLine => 10
    case MacdSignal => 11
    case BollingerUpper => 12
    case BollingerMiddle => 13
    case BollingerLower => 14
  }

  lemma KindNamesDiffer(k: OperandKind, l: OperandKind)
    requires k != l
    ensures KindName(k) != KindName(l)
  {
  }

  lemma {:induction false} KindFound(k: OperandKind, among: seq<OperandKind>, i: nat)
    requires i < |among| && among[i] == k
    ensures KindNamed(KindName(k), among) == Some(k)
  {
    if among[0] != k {
      KindNamesDiffer(k, among[0]);
      KindFound(k, among[1..], i - 1);
    }
  }

  lemma OperandRoundTrips(o: Operand)
    requires ValidOperand(o)
    ensures ReadOperand(DumpOperand(o)) == Some(o)
  {
    KindRoundTrips(o.kind);
    hide KindNamed, KindName;
    var j := DumpOperand(o);
    assert Field(j, "kind") == Some(Str(KindName(o.kind)));
    assert Field(j, "period") == Some(DumpInt(o.period));
    assert Field(j, "value") == Some(DumpNumber(o.value));
  }

  lemma ConditionFields(c: Condition)
    ensures Field(DumpCondition(c), "left") == Some(DumpOperand(c.left))
    ensures Field(DumpCondition(c), "right") == Some(DumpOperand(c.right))
    ensures Field(DumpCondition(c), "comparison") == Some(Str(ComparisonName(c.comparison)))
  {
    hide DumpOperand, ComparisonName;
  }

  lemma ComparisonRoundTrips(c: Comparison)
    ensures ComparisonNamed(ComparisonName(c)) == Some(c)
  {
  }

  lemma ConditionRoundTrips(c: Condition)
    requires ValidCondition(c)
    ensures ReadCondition(DumpCondition(c)) == Some(c)
  {
    hide ReadOperand, DumpOperand, Field, DumpCondition, ComparisonName, ComparisonNamed, ValidOperand;
    OperandRoundTrips(c.left);
    OperandRoundTrips(c.right);
    ComparisonRoundTrips(c.comparison);
    ConditionFields(c);
  }

  lemma {:induction false} ConditionsRoundTrip(conditions: seq<Condition>)
    requires forall c | c in conditions :: ValidCondition(c)
    ensures ReadConditions(DumpConditions(conditions)) == Some(conditions)
    ensures |DumpConditions(conditions)| == |conditions|
  {
    if conditions != [] {
      ConditionRoundTrips(conditions[0]);
      ConditionsRoundTrip(conditions[1..]);
      hide ReadCondition, DumpCondition;
      assert DumpConditions(conditions)[1..] == DumpConditions(conditions[1..]);
      assert conditions == [conditions[0]] + conditions[1..];
    }
  }

  lemma RuleFields(s: Definition)
    ensures Field(Dump(s), "name") == Some(Str(s.name)) && Field(Dump(s), "description") == Some(Str(s.description))
    ensures Field(Dump(s), "entry") == Some(List(DumpConditions(s.entry)))
            && Field(Dump(s), "exit") == Some(List(DumpConditions(s.exit)))
  {
    hide DumpConditions, DumpNumber;
  }

  lemma BracketFields(s: Definition)
    ensures Field(Dump(s), "stop_loss_atr") == Some(DumpNumber(s.stopLossAtr))
    ensures Field(Dump(s), "take_profit_atr") == Some(DumpNumber(s.takeProfitAtr))
    ensures Field(Dump(s), "atr_period") == Some(Number(s.atrPeriod as real))
  {
    hide DumpConditions, DumpNumber;
  }

  lemma RulesRoundTrip(conditions: seq<Condition>)
    requires conditions != [] && forall c | c in conditions :: ValidCondition(c)
    ensures ReadRules(Some(List(DumpConditions(conditions)))) == Some(conditions)
  {
    ConditionsRoundTrip(conditions);
    hide ReadConditions, DumpConditions, ValidCondition;
  }

  lemma BracketsRoundTrip(s: Definition)
    ensures ReadOptionalNumber(Some(DumpNumber(s.stopLossAtr))) == Some(s.stopLossAtr)
    ensures ReadOptionalNumber(Some(DumpNumber(s.takeProfitAtr))) == Some(s.takeProfitAtr)
    ensures ReadAtrPeriod(Some(Number(s.atrPeriod as real))) == Some(s.atrPeriod)
  {
  }

  /** Dumping a valid strategy and re-validating it gives the same strategy back. */
  lemma StrategyRoundTrips(s: Definition)
    requires ValidDefinition(s)
    ensures Read(Dump(s)) == Some(s)
  {
    hide ValidCondition, DumpConditions, Dump, Field, ReadRules, ReadAtrPeriod, ReadOptionalNumber, DumpNumber;
    assert (forall c | c in s.entry :: ValidCondition(c)) && forall c | c in s.exit :: ValidCondition(c);
    RulesRoundTrip(s.entry);
    RulesRoundTrip(s.exit);
    BracketsRoundTrip(s);
    hide ValidDefinition;
    RuleFields(s);
    BracketFields(s);
  }

  /** Whatever validates is a valid strategy. */
  lemma ReadIsValid(j: Json)
    requires Read(j).Some?
    ensures ValidDefinition(Read(j).value) && ObeysRules(Read(j).value)
  {
    RulesExactly(Read(j).value);
    hide ObeysRules;
  }

  /** What a document may leave out: the brackets, the description, and an ATR period of 14. */
  lemma AbsentFieldsDefault(j: Json)
    requires Read(j).Some?
    ensures Field(j, "atr_period").None? ==> Read(j).value.atrPeriod == 14
    ensures Field(j, "description").None? ==> Read(j).value.description == ""
    ensures Field(j, "stop_loss_atr").None? ==> Read(j).value.stopLossAtr.None?
    ensures Field(j, "take_profit_atr").None? ==> Read(j).value.takeProfitAtr.None?
    ensures Field(j, "entry").Some? && Field(j, "exit").Some? && Field(j, "name").Some?
  {
    hide ReadConditions, ValidDefinition;
  }
}
