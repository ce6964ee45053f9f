/** Writing sampled values into a strategy's dump at dotted paths, then re-validating it. */
module StrategyParams {
  import opened Numeric
  import opened Text
  import opened Strategy
  import opened StrategyJson

  datatype ParameterKind = IntParameter | FloatParameter

  datatype SearchParameter = SearchParameter(name: string, kind: ParameterKind, low: real, high: real,
    step: Option<real>, paths: seq<string>)

  predicate ValidParameter(p: SearchParameter) { 1 <= |p.name| <= 64 && p.low < p.high && p.paths != [] }

  type Values = map<string, real>

  /** Why nothing was applied: the exceptions a path can raise, a value nobody gave, and a strategy that does not
   * validate.
   */
  datatype Refusal = NoField | NotAnIndex | OutOfRange | NotAContainer | MissingValue | InvalidStrategy

  datatype Outcome<T> = Ok(value: T) | Err(refusal: Refusal)

  // Paths.

  function Split(path: string): (segments: seq<string>)
    ensures segments != []
  {
    if path == "" then [""]
    else
      var rest := Split(path[1..]);
      if path[0] == '.' then [""] + rest else [[path[0]] + rest[0]] + rest[1..]
  }

  predicate IsDigit(c: char) { '0' <= c <= '9' }

  /** Digits, with single underscores allowed between them. */
  predicate IsNumeral(s: string) {
    && s != "" && IsDigit(s[0])
    && (|s| == 1 || IsNumeral(s[1..]) || (s[1] == '_' && IsNumeral(s[2..])))
  }

  function NumeralValue(s: string): nat {
    if s == "" then 0
    else
      var last := s[|s| - 1];
      if IsDigit(last) then 10 * NumeralValue(s[..|s| - 1]) + (last as int - '0' as int) else NumeralValue(s[..|s| - 1])
  }

  /** Python's `int(text)` on ASCII text. */
  function ParseInt(text: string): Option<int> {
    var s := StripRight(StripLeft(text));
    var signed := s != "" && (s[0] == '-' || s[0] == '+');
    var digits := if signed then s[1..] else s;
    var magnitude: int := NumeralValue(digits);
    if !IsNumeral(digits) then None else Some(if signed && s[0] == '-' then -magnitude else magnitude)
  }

  /** One step into a container: a field, or a position counted from the front. */
  datatype Key = Name(name: string) | At(index: nat)

  predicate HasKey(node: Json, key: Key) {
    match key
    case Name(name) => node.Obj? && name in node.fields
    case At(index) => node.List? && index < |node.items|
  }

  function Child(node: Json, key: Key): (child: Json)
    requires HasKey(node, key)
    ensures child < node
  {
    match key
    case Name(name) => node.fields[name]
    case At(index) => node.items[index]
  }

  function Replaced(node: Json, key: Key, child: Json): Json
    requires HasKey(node, key)
  {
    match key
    case Name(name) => Obj(node.fields[name := child])
    case At(index) => List(node.items[index := child])
  }

  /** What a segment selects; a negative index counts from the end. */
  function KeyOf(node: Json, segment: string): (key: Outcome<Key>)
    ensures key.Ok? ==> HasKey(node, key.value)
  {
    match node
    case Obj(fields) => if segment in fields then Ok(Name(segment)) else Err(NoField)
    case List(items) =>
      var i := ParseInt(segment);
      if i.None? then Err(NotAnIndex)
      else if i.value >= |items| || i.value < -|items| then Err(OutOfRange)
      else Ok(At(if i.value < 0 then i.value + |items| else i.value))
    case _ => Err(NotAContainer)
  }

  function SetPath(node: Json, segments: seq<string>, value: Json): Outcome<Json>
    requires segments != []
    decreases |segments|
  {
    var key := KeyOf(node, segments[0]);
    if key.Err? then Err(key.refusal)
    else if |segments| == 1 then Ok(Replaced(node, key.value, value))
    else
      var child := SetPath(Child(node, key.value), segments[1..], value);
      if child.Err? then Err(child.refusal) else Ok(Replaced(node, key.value, child.value))
  }

  /** The keys a path goes through, every index counted from the front. */
  function Address(node: Json, segments: seq<string>): Outcome<seq<Key>>
    decreases |segments|
  {
    if segments == [] then Ok([])
    else
      var key := KeyOf(node, segments[0]);
      if key.Err? then Err(key.refusal)
      else
        var rest := Address(Child(node, key.value), segments[1..]);
        if rest.Err? then Err(rest.refusal) else Ok([key.value] + rest.value)
  }

  function Get(node: Json, address: seq<Key>): Option<Json>
    decreases |address|
  {
    if address == [] then Some(node)
    else if !HasKey(node, address[0]) then None
    else Get(Child(node, address[0]), address[1..])
  }

  /** Two addresses part ways somewhere: neither leads through the other. */
  predicate Diverge(a: seq<Key>, b: seq<Key>) {
    exists i | 0 <= i < |a| && i < |b| :: a[i] != b[i]
  }

  /** Containers keep their fields and their length. */
  predicate SameShape(j: Json, k: Json) {
    || (j.Obj? && k.Obj? && j.fields.Keys == k.fields.Keys)
    || (j.List? && k.List? && |j.items| == |k.items|)
  }

  lemma ReplacedKeys(node: Json, key: Key, child: Json, other: Key)
    requires HasKey(node, key)
    ensures SameShape(node, Replaced(node, key, child))
    ensures HasKey(Replaced(node, key, child), other) <==> HasKey(node, other)
    ensures HasKey(node, other) ==>
            Child(Replaced(node, key, child), other) == if other == key then child else Child(node, other)
  {
  }

  lemma {:induction false} SetPathResolves(node: Json, segments: seq<string>, value: Json)
    requires segments != []
    ensures Address(node, segments).Ok? <==> SetPath(node, segments, value).Ok?
    ensures Address(node, segments).Err? ==> SetPath(node, segments, value) == Err(Address(node, segments).refusal)
    ensures Address(node, segments).Ok? && SetPath(node, segments, value).Ok? ==>
              Get(SetPath(node, segments, value).value, Address(node, segments).value) == Some(value)
    decreases |segments|
  {
    var key := KeyOf(node, segments[0]);
    if key.Ok? {
      if |segments| == 1 {
        ReplacedKeys(node, key.value, value, key.value);
        var rest := Address(Child(node, key.value), segments[1..]);
        assert segments[1..] == [] && rest == Ok([]);
        assert [key.value] + rest.value == [key.value];
      } else {
        SetPathResolves(Child(node, key.value), segments[1..], value);
        var child := SetPath(Child(node, key.value), segments[1..], value);
        if child.Ok? {
          ReplacedKeys(node, key.value, child.value, key.value);
        }
      }
    }
  }

  /**
   * Setting a path changes the addressed leaf and nothing else: everything that parts ways with the
   * address is untouched, and every container on the way keeps its fields or its length.
   */
  lemma {:induction false} SetPathChangesOnlyTheLeaf(node: Json, segments: seq<string>, value: Json, other: seq<Key>)
    requires segments != [] && SetPath(node, segments, value).Ok? && Address(node, segments).Ok?
    ensures Get(SetPath(node, segments, value).value, Address(node, segments).value) == Some(value)
    ensures Diverge(other, Address(node, segments).value) ==>
            Get(SetPath(node, segments, value).value, other) == Get(node, other)
    ensures other < Address(node, segments).value ==>
              Get(node, other).Some? && Get(SetPath(node, segments, value).value, other).Some?
              && SameShape(Get(node, other).value, Get(SetPath(node, segments, value).value, other).value)
    decreases |segments|
  {
    SetPathResolves(node, segments, value);
    var key, address := KeyOf(node, segments[0]).value, Address(node, segments).value;
    var child := if |segments| == 1 then value else SetPath(Child(node, key), segments[1..], value).value;
    assert SetPath(node, segments, value).value == Replaced(node, key, child);
    assert address[0] == key;
    ReplacedKeys(node, key, child, key);
    if other != [] {
      ReplacedKeys(node, key, child, other[0]);
      if other[0] == key {
        if |segments| == 1 {
          assert address == [key];
        } else {
          assert address == [key] + address[1..];
          SetPathChangesOnlyTheLeaf(Child(node, key), segments[1..], value, other[1..]);
          if Diverge(other, address) {
            var i :| 0 <= i < |other| && i < |address| && other[i] != address[i];
            assert other[1..][i - 1] != address[1..][i - 1];
          }
        }
      }
    }
  }

  // What a path's text means.

  function Join(segments: seq<string>): string
    requires segments != []
  {
    if |segments| == 1 then segments[0] else segments[0] + "." + Join(segments[1..])
  }

  /** Splitting a path undoes joining it with dots: nothing is lost and no dot is left. */
  lemma {:induction false} SplitJoins(path: string)
    ensures Join(Split(path)) == path && forall s | s in Split(path) :: '.' !in s
  {
    if path != "" {
      SplitJoins(path[1..]);
      var rest := Split(path[1..]);
      if path[0] == '.' {
        assert ([""] + rest)[1..] == rest;
        assert Join([""] + rest) == "." + Join(rest);
      } else {
        assert ([[path[0]] + rest[0]] + rest[1..])[1..] == rest[1..];
        assert Join(Split(path)) == [path[0]] + Join(rest);
      }
    }
  }

  function Digit(n: nat): char
    requires n < 10
  {
    ('0' as int + n) as char
  }

  /** A number in decimal. */
  function Decimal(n: nat): (s: string)
    ensures s != "" && forall c | c in s :: IsDigit(c)
  {
    if n < 10 then [Digit(n)] else Decimal(n / 10) + [Digit(n % 10)]
  }

  function Shown(n: int): string { if n < 0 then "-" + Decimal(-n) else Decimal(n) }

  lemma {:induction false} DigitsAreNumeral(s: string)
    requires s != "" && forall c | c in s :: IsDigit(c)
    ensures IsNumeral(s)
  {
    assert s[0] in s;
    if |s| > 1 {
      DigitsAreNumeral(s[1..]);
    }
  }

  lemma {:induction false} DecimalValue(n: nat)
    ensures NumeralValue(Decimal(n)) == n
  {
    if n >= 10 {
      DecimalValue(n / 10);
      var s := Decimal(n);
      assert s[..|s| - 1] == Decimal(n / 10);
    } else {
      assert Decimal(n)[..0] == "";
    }
  }

  lemma NothingToStrip(s: string)
    requires s != "" && !IsSpace(s[0]) && !IsSpace(s[|s| - 1])
    ensures StripRight(StripLeft(s)) == s
  {
  }

  /** Every whole number in decimal, negative ones with a sign, is read back as itself. */
  lemma ShownIsParsed(n: int)
    ensures ParseInt(Shown(n)) == Some(n)
  {
    hide Decimal, IsNumeral, NumeralValue, StripLeft, StripRight;
    var digits := Decimal(if n < 0 then -n else n);
    assert digits[0] in digits && digits[|digits| - 1] in digits;
    DigitsAreNumeral(digits);
    DecimalValue(if n < 0 then -n else n);
    var s := Shown(n);
    assert s[|s| - 1] == digits[|digits| - 1];
    NothingToStrip(s);
    assert n < 0 ==> s[1..] == digits;
  }

  /** In a list of `k` items, the numbers from -k to k - 1 select an item, negative ones counted from the end. */
  lemma NumberSelects(items: seq<Json>, n: int)
    ensures KeyOf(List(items), Shown(n)) ==
            if 0 <= n < |items| then Ok(At(n)) else if -|items| <= n < 0 then Ok(At(|items| + n)) else Err(OutOfRange)
  {
    ShownIsParsed(n);
    hide ParseInt, Shown;
  }

  // Applying a whole assignment.

  /** What gets written: an integer parameter is truncated first. */
  function Written(p: SearchParameter, raw: real): (w: real)
    ensures p.kind == FloatParameter ==> w == raw
    ensures p.kind == IntParameter ==> w == w.Floor as real && -1.0 < w - raw < 1.0
    ensures (raw >= 0.0 ==> 0.0 <= w <= raw) && (raw <= 0.0 ==> raw <= w <= 0.0)
  {
    if p.kind == IntParameter then Truncate(raw) as real else raw
  }

  function SetAll(dump: Json, paths: seq<string>, value: real): Outcome<Json>
    decreases |paths|
  {
    if paths == [] then Ok(dump)
    else
      var next := SetPath(dump, Split(paths[0]), Number(value));
      if next.Err? then Err(next.refusal) else SetAll(next.value, paths[1..], value)
  }

  function WriteAll(dump: Json, parameters: seq<SearchParameter>, values: Values): Outcome<Json>
    decreases |parameters|
  {
    if parameters == [] then Ok(dump)
    else if parameters[0].name !in values then Err(MissingValue)
    else
      var next := SetAll(dump, parameters[0].paths, Written(parameters[0], values[parameters[0].name]));
      if next.Err? then Err(next.refusal) else WriteAll(next.value, parameters[1..], values)
  }

  function Validated(dump: Json): Outcome<Definition> {
    var s := Read(dump);
    if s.Some? then Ok(s.value) else Err(InvalidStrategy)
  }

  function Apply(strategy: Definition, parameters: seq<SearchParameter>, values: Values): Outcome<Definition> {
    var dump := WriteAll(Dump(strategy), parameters, values);
    if dump.Err? then Err(dump.refusal) else Validated(dump.value)
  }
}
