/** Declarative strategies: operands, conditions, their validation rules and the warm-up they need. */
module Strategy {
  import opened Numeric

  datatype OperandKind =
    | OpenPrice | HighPrice | LowPrice | ClosePrice | Volume | Constant
    | Sma | Ema | Rsi | Atr | MacdLine | MacdSignal | BollingerUpper | BollingerMiddle | BollingerLower

  predicate TakesPeriod(k: OperandKind) {
    k in {Sma, Ema, Rsi, Atr, BollingerUpper, BollingerMiddle, BollingerLower}
  }

  predicate IsMacd(k: OperandKind) { k == MacdLine || k == MacdSignal }

  datatype Comparison = Gt | Lt | CrossesAbove | CrossesBelow

  datatype Operand = Operand(kind: OperandKind, period: Option<int>, value: Option<real>)

  datatype Condition = Condition(left: Operand, comparison: Comparison, right: Operand)

  datatype Definition = Definition(
    name: string, description: string,
    entry: seq<Condition>, exit: seq<Condition>,
    stopLossAtr: Option<real>, takeProfitAtr: Option<real>, atrPeriod: int)

  predicate ValidOperand(o: Operand) {
    && (o.period.Some? ==> 2 <= o.period.value <= 500)
    && (if o.kind == Constant then o.value.Some? && o.period.None?
        else if TakesPeriod(o.kind) then o.period.Some? && o.value.None?
        else o.period.None? && o.value.None?)
  }

  predicate ValidCondition(c: Condition) { ValidOperand(c.left) && ValidOperand(c.right) }

  predicate ValidBracket(multiple: Option<real>) { multiple.Some? ==> 0.0 < multiple.value <= 20.0 }

  predicate ValidDefinition(s: Definition) {
    && 1 <= |s.name| <= 64
    && s.entry != [] && s.exit != []
    && (forall c | c in s.entry + s.exit :: ValidCondition(c))
    && ValidBracket(s.stopLossAtr) && ValidBracket(s.takeProfitAtr)
    && 2 <= s.atrPeriod <= 100
  }

  /** The rules operand by operand: constants have a value, indicators a period, prices and MACD lines neither. */
  predicate ObeysOperandRules(o: Operand) {
    && (o.kind == Constant ==> o.value.Some? && o.period.None?)
    && (o.kind != Constant ==> o.value.None?)
    && (o.kind in {OpenPrice, HighPrice, LowPrice, ClosePrice, Volume, MacdLine, MacdSignal} ==> o.period.None?)
    && (o.kind in {Sma, Ema, Rsi, Atr, BollingerUpper, BollingerMiddle, BollingerLower} ==>
          o.period.Some? && 2 <= o.period.value <= 500)
  }

  /** A strategy as a whole: a name of at most 64 characters, something to enter and exit on, brackets up to 20 ATR. */
  predicate ObeysRules(s: Definition) {
    && 0 < |s.name| < 65 && |s.entry| > 0 && |s.exit| > 0
    && (forall o | o in Rules(s) :: ObeysOperandRules(o))
    && (s.stopLossAtr.Some? ==> 0.0 < s.stopLossAtr.value <= 20.0)
    && (s.takeProfitAtr.Some? ==> 0.0 < s.takeProfitAtr.value <= 20.0)
    && 2 <= s.atrPeriod <= 100
  }

  lemma {:induction false} OperandsListed(conditions: seq<Condition>)
    ensures forall o :: o in Operands(conditions) <==> exists c | c in conditions :: o == c.left || o == c.right
  {
    if conditions != [] {
      var front, last := conditions[..|conditions| - 1], conditions[|conditions| - 1];
      assert conditions == front + [last];
      OperandsListed(front);
      assert last in conditions;
      assert forall o :: o in Operands(conditions) <==> o in Operands(front) || o == last.left || o == last.right;
    }
  }

  /** The validators accept exactly the strategies that obey the rules. */
  lemma RulesExactly(s: Definition)
    ensures ValidDefinition(s) <==> ObeysRules(s)
  {
    OperandsListed(s.entry + s.exit);
    forall o
      ensures ValidOperand(o) <==> ObeysOperandRules(o)
    {
    }
    hide ValidOperand, ObeysOperandRules, Operands;
    if ObeysRules(s) {
      forall c | c in s.entry + s.exit
        ensures ValidCondition(c)
      {
        assert c.left in Rules(s) && c.right in Rules(s);
      }
    }
  }

  /** So no strategy needs more than 500 bars of warm-up, nor fewer than one. */
  lemma WarmupInRange(s: Definition)
    requires ValidDefinition(s)
    ensures 1 <= Warmup(s) <= 500
  {
    RulesExactly(s);
    WarmupIsLargestNeed(s, Warmup(s));
    hide Warmup, ValidDefinition;
  }

  const MACD_WARMUP := 35

  /** Every operand, left before right, entry conditions before exit conditions. */
  function Operands(conditions: seq<Condition>): seq<Operand> {
    if conditions == [] then []
    else
      var last := conditions[|conditions| - 1];
      Operands(conditions[..|conditions| - 1]) + [last.left, last.right]
  }

  function Rules(s: Definition): seq<Operand> { Operands(s.entry + s.exit) }

  predicate HasBracket(s: Definition) { s.stopLossAtr.Some? || s.takeProfitAtr.Some? }

  /** `need` is a number of bars some part of the strategy asks for. */
  predicate Needs(s: Definition, need: int) {
    || (exists o | o in Rules(s) :: o.period == Some(need))
    || (need == 35 && exists o | o in Rules(s) :: o.kind in {MacdLine, MacdSignal})
    || (need == s.atrPeriod && (s.stopLossAtr.Some? || s.takeProfitAtr.Some?))
  }

  /** Bars before every referenced indicator is defined: the largest need, or 1 when nothing needs any. */
  ghost predicate IsWarmup(s: Definition, bars: int) {
    && (forall need | Needs(s, need) :: need <= bars)
    && (Needs(s, bars) || (bars == 1 && forall need :: !Needs(s, need)))
  }

  function MaxOr(periods: seq<int>, default: int): int {
    if periods == [] then default
    else if |periods| == 1 then periods[0]
    else
      var rest := MaxOr(periods[..|periods| - 1], default);
      if periods[|periods| - 1] > rest then periods[|periods| - 1] else rest
  }

  function Periods(operands: seq<Operand>): seq<int> {
    if operands == [] then []
    else
      var last := operands[|operands| - 1];
      Periods(operands[..|operands| - 1]) + if last.period.Some? then [last.period.value] else []
  }

  predicate AnyMacd(operands: seq<Operand>) { exists o | o in operands :: IsMacd(o.kind) }

  function AllPeriods(s: Definition): seq<int> {
    Periods(Rules(s)) + (if AnyMacd(Rules(s)) then [MACD_WARMUP] else []) + if HasBracket(s) then [s.atrPeriod] else []
  }

  function Warmup(s: Definition): int { MaxOr(AllPeriods(s), 1) }

  function MinHistory(s: Definition): int { Warmup(s) + 10 }

  method WarmupBars(s: Definition) returns (bars: int)
    ensures bars == Warmup(s)
  {
    var operands: seq<Operand> := [];
    var conditions := s.entry + s.exit;
    for i := 0 to |conditions|
      invariant operands == Operands(conditions[..i])
    {
      assert conditions[..i + 1][..i] == conditions[..i];
      operands := operands + [conditions[i].left, conditions[i].right];
    }
    assert conditions[..|conditions|] == conditions;
    var periods: seq<int> := [];
    for i := 0 to |operands|
      invariant periods == Periods(operands[..i])
    {
      assert operands[..i + 1][..i] == operands[..i];
      if operands[i].period.Some? {
        periods := periods + [operands[i].period.value];
      }
    }
    assert operands[..|operands|] == operands;
    if exists o | o in operands :: IsMacd(o.kind) {
      periods := periods + [MACD_WARMUP];
    }
    if s.stopLossAtr.Some? || s.takeProfitAtr.Some? {
      periods := periods + [s.atrPeriod];
    }
    assert periods == AllPeriods(s);
    bars := MaxOr(periods, 1);
  }

  lemma {:induction false} MaxOrIsMax(periods: seq<int>, default: int)
    ensures periods != [] ==> MaxOr(periods, default) in periods
    ensures forall p | p in periods :: p <= MaxOr(periods, default)
  {
    if |periods| > 1 {
      var front := periods[..|periods| - 1];
      assert periods == front + [periods[|periods| - 1]];
      MaxOrIsMax(front, default);
    }
  }

  lemma {:induction false} PeriodsMembers(operands: seq<Operand>)
    ensures forall p :: p in Periods(operands) <==> exists o | o in operands :: o.period == Some(p)
  {
    if operands != [] {
      var front, last := operands[..|operands| - 1], operands[|operands| - 1];
      assert operands == front + [last];
      PeriodsMembers(front);
      forall p
        ensures p in Periods(operands) <==> exists o | o in operands :: o.period == Some(p)
      {
        if p in Periods(front) {
          var o :| o in front && o.period == Some(p);
          assert o in operands;
        }
        if o :| o in operands && o.period == Some(p) {
          assert o in front || o == last;
        }
        assert last in operands;
      }
    }
  }

  lemma NeedsArePeriods(s: Definition, need: int)
    ensures Needs(s, need) <==> need in AllPeriods(s)
  {
    PeriodsMembers(Rules(s));
  }

  /** The computed warm-up is the largest need there is, and the only number that is. */
  lemma WarmupIsLargestNeed(s: Definition, bars: int)
    ensures IsWarmup(s, bars) <==> bars == Warmup(s)
  {
    var periods := AllPeriods(s);
    MaxOrIsMax(periods, 1);
    forall need
      ensures Needs(s, need) <==> need in periods
    {
      NeedsArePeriods(s, need);
    }
    hide Needs, AllPeriods;
    if periods != [] {
      assert Needs(s, Warmup(s));
    }
  }
}
