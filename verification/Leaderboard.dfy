/** The opportunity leaderboard: an untrusted ordering merged into a deterministic one. */
module Leaderboard {
  import opened Numeric
  import opened Sorting
  import opened Text

  /** A screened symbol; `detail` stands for everything the ordering does not read. */
  datatype Candidate = Candidate(symbol: string, composite: real, detail: string)

  /** One line of the model's answer. */
  datatype Verdict = Verdict(symbol: string, reasoning: string)

  datatype Row = Row(rank: int, candidate: Candidate, verdict: Option<Verdict>)

  datatype Ranking = Ranking(rows: seq<Row>, considered: nat, rankedByAgent: bool)

  datatype Answer = Ordering(verdicts: seq<Verdict>) | Unavailable

  function CandidatesOf(rows: seq<Row>): seq<Candidate> {
    seq(|rows|, i requires 0 <= i < |rows| => rows[i].candidate)
  }

  function Symbols(candidates: seq<Candidate>): seq<string> {
    seq(|candidates|, i requires 0 <= i < |candidates| => candidates[i].symbol)
  }

  function VerdictSymbols(verdicts: seq<Verdict>): seq<string> {
    seq(|verdicts|, i requires 0 <= i < |verdicts| => verdicts[i].symbol)
  }

  // Deterministic order.

  /** Composite descending, symbol as tiebreak. */
  predicate Better(a: Candidate, b: Candidate) {
    a.composite > b.composite || (a.composite == b.composite && StringLeq(a.symbol, b.symbol))
  }

  /** The higher composite first; of equal ones the symbol that precedes. */
  ghost predicate Outranks(a: Candidate, b: Candidate) {
    a.composite > b.composite || (a.composite == b.composite && Precedes(a.symbol, b.symbol))
  }

  lemma BetterOutranks(a: Candidate, b: Candidate)
    ensures Better(a, b) <==> Outranks(a, b)
  {
    StringLeqMeans(a.symbol, b.symbol);
  }

  function ByComposite(candidates: seq<Candidate>): seq<Candidate> { Sort(candidates, Better) }

  lemma BetterIsOrder()
    ensures TotalOrder(Better)
  {
    forall x, y
      ensures Better(x, y) || Better(y, x)
    {
      StringLeqTotal(x.symbol, y.symbol);
    }
    forall x, y, z | Better(x, y) && Better(y, z)
      ensures Better(x, z)
    {
      if x.composite == y.composite == z.composite {
        StringLeqTransitive(x.symbol, y.symbol, z.symbol);
      }
    }
  }

  // The model's ordering, validated.

  /** The verdicts that name a known symbol, each at its first mention, under the normalised name. */
  function FirstMentions(ordering: seq<Verdict>, known: set<string>): seq<Verdict> {
    if ordering == [] then []
    else
      var kept, v := FirstMentions(ordering[..|ordering| - 1], known), ordering[|ordering| - 1];
      var symbol := Normalize(v.symbol);
      if symbol !in known || symbol in VerdictSymbols(kept) then kept else kept + [v.(symbol := symbol)]
  }

  method Validate(ordering: seq<Verdict>, candidates: seq<Candidate>) returns (kept: seq<Verdict>)
    ensures kept == FirstMentions(ordering, set c | c in candidates :: c.symbol)
  {
    var known := set c | c in candidates :: c.symbol;
    var seen: set<string> := {};
    kept := [];
    for i := 0 to |ordering|
      invariant kept == FirstMentions(ordering[..i], known)
      invariant forall s :: s in seen <==> s in VerdictSymbols(kept)
    {
      assert ordering[..i + 1][..i] == ordering[..i];
      var symbol := Normalize(ordering[i].symbol);
      if symbol in known && symbol !in seen {
        VerdictSymbolsSnoc(kept, ordering[i].(symbol := symbol));
        seen := seen + {symbol};
        kept := kept + [ordering[i].(symbol := symbol)];
      }
    }
    assert ordering[..|ordering|] == ordering;
  }

  lemma VerdictSymbolsSnoc(verdicts: seq<Verdict>, v: Verdict)
    ensures VerdictSymbols(verdicts + [v]) == VerdictSymbols(verdicts) + [v.symbol]
  {
  }

  /**
   * What validation keeps: positions in the model's own order, each the first mention of its symbol;
   * every known symbol mentioned at all is kept, and no symbol is kept twice.
   */
  lemma {:induction false} ValidationIsExact(ordering: seq<Verdict>, known: set<string>) returns (at: seq<nat>)
    ensures var kept := FirstMentions(ordering, known);
            && |at| == |kept|
            && (forall i | 0 <= i < |at| ::
              at[i] < |ordering| && kept[i] == ordering[at[i]].(symbol := Normalize(ordering[at[i]].symbol)))
            && (forall i, j | 0 <= i < j < |at| :: at[i] < at[j])
            && (forall i, k | 0 <= i < |at| && 0 <= k < at[i] :: Normalize(ordering[k].symbol) != kept[i].symbol)
            && Distinct(VerdictSymbols(kept))
            && (forall s ::
              s in VerdictSymbols(kept) <==> s in known && exists v | v in ordering :: Normalize(v.symbol) == s)
  {
    hide Normalize;
    if ordering == [] {
      at := [];
    } else {
      var front, v := ordering[..|ordering| - 1], ordering[|ordering| - 1];
      assert ordering == front + [v];
      var kept, symbol := FirstMentions(front, known), Normalize(v.symbol);
      at := ValidationIsExact(front, known);
      if symbol in known && symbol !in VerdictSymbols(kept) {
        var w := v.(symbol := symbol);
        VerdictSymbolsSnoc(kept, w);
        DistinctSnoc(VerdictSymbols(kept), symbol);
        forall k | 0 <= k < |front|
          ensures Normalize(front[k].symbol) != symbol
        {
          assert front[k] in front;
        }
        at := at + [|front|];
      }
    }
  }

  // Merging.

  /** The candidate a symbol stands for; the later one when two share it. */
  function Lookup(candidates: seq<Candidate>, symbol: string): (c: Candidate)
    requires symbol in Symbols(candidates)
    ensures c in candidates && c.symbol == symbol
  {
    var last := candidates[|candidates| - 1];
    if last.symbol == symbol then last
    else
      assert Symbols(candidates) == Symbols(candidates[..|candidates| - 1]) + [last.symbol];
      Lookup(candidates[..|candidates| - 1], symbol)
  }

  function WrittenUp(verdicts: seq<Verdict>, candidates: seq<Candidate>): (rows: seq<Row>)
    requires forall v | v in verdicts :: v.symbol in Symbols(candidates)
    ensures |rows| == |verdicts|
    ensures forall i | 0 <= i < |rows| ::
            rows[i] == Row(i + 1, Lookup(candidates, verdicts[i].symbol), Some(verdicts[i]))
  {
    seq(|verdicts|, i
      requires 0 <= i < |verdicts| => Row(i + 1, Lookup(candidates, verdicts[i].symbol), Some(verdicts[i])))
  }

  function Named(candidates: seq<Candidate>, symbols: set<string>): seq<Candidate> {
    if candidates == [] then []
    else (if candidates[0].symbol in symbols then [candidates[0]] else []) + Named(candidates[1..], symbols)
  }

  function Others(candidates: seq<Candidate>, symbols: set<string>): seq<Candidate> {
    if candidates == [] then []
    else (if candidates[0].symbol in symbols then [] else [candidates[0]]) + Others(candidates[1..], symbols)
  }

  /** Rows without a verdict, numbered from `first`. */
  function Plain(candidates: seq<Candidate>, first: int): (rows: seq<Row>)
    ensures |rows| == |candidates|
    ensures forall i | 0 <= i < |rows| :: rows[i] == Row(first + i, candidates[i], None)
  {
    seq(|candidates|, i requires 0 <= i < |candidates| => Row(first + i, candidates[i], None))
  }

  function Ranked(verdicts: seq<Verdict>): set<string> { set v | v in verdicts :: v.symbol }

  function Merged(verdicts: seq<Verdict>, candidates: seq<Candidate>): seq<Row>
    requires forall v | v in verdicts :: v.symbol in Symbols(candidates)
  {
    WrittenUp(verdicts, candidates) + Plain(Others(candidates, Ranked(verdicts)), |verdicts| + 1)
  }

  lemma {:induction false} OthersSnoc(candidates: seq<Candidate>, c: Candidate, symbols: set<string>)
    ensures Others(candidates + [c], symbols) == Others(candidates, symbols) + if c.symbol in symbols then [] else [c]
  {
    if candidates == [] {
      assert candidates + [c] == [c];
    } else {
      assert (candidates + [c])[1..] == candidates[1..] + [c] && (candidates + [c])[0] == candidates[0];
      OthersSnoc(candidates[1..], c, symbols);
      var first := if candidates[0].symbol in symbols then [] else [candidates[0]];
      assert Others(candidates, symbols) == first + Others(candidates[1..], symbols);
      assert Others(candidates + [c], symbols) == first + Others(candidates[1..] + [c], symbols);
    }
  }

  method Merge(verdicts: seq<Verdict>, candidates: seq<Candidate>) returns (rows: seq<Row>)
    requires forall v | v in verdicts :: v.symbol in Symbols(candidates)
    ensures rows == Merged(verdicts, candidates)
  {
    var ranked := set v | v in verdicts :: v.symbol;
    rows := [];
    for i := 0 to |verdicts|
      invariant rows == WrittenUp(verdicts, candidates)[..i]
    {
      rows := rows + [Row(i + 1, Lookup(candidates, verdicts[i].symbol), Some(verdicts[i]))];
    }
    ghost var written := rows;
    assert written == WrittenUp(verdicts, candidates);
    var unranked: seq<Candidate> := [];
    for i := 0 to |candidates|
      invariant unranked == Others(candidates[..i], ranked)
    {
      OthersSnoc(candidates[..i], candidates[i], ranked);
      assert candidates[..i + 1] == candidates[..i] + [candidates[i]];
      if candidates[i].symbol !in ranked {
        unranked := unranked + [candidates[i]];
      }
    }
    assert candidates[..|candidates|] == candidates;
    for offset := 0 to |unranked|
      invariant rows == written + Plain(unranked, |verdicts| + 1)[..offset]
    {
      rows := rows + [Row(|verdicts| + 1 + offset, unranked[offset], None)];
    }
  }

  function Truncated(rows: seq<Row>, limit: Option<int>): seq<Row> {
    if limit.None? then rows else Take(rows, limit.value)
  }

  lemma MentionsAreKnown(ordering: seq<Verdict>, candidates: seq<Candidate>)
    ensures forall v | v in FirstMentions(ordering, set c | c in candidates :: c.symbol) ::
            v.symbol in Symbols(candidates)
  {
    var known := set c | c in candidates :: c.symbol;
    var kept := FirstMentions(ordering, known);
    var at := ValidationIsExact(ordering, known);
    forall v | v in kept
      ensures v.symbol in Symbols(candidates)
    {
      var i :| 0 <= i < |kept| && kept[i] == v;
      assert VerdictSymbols(kept)[i] == v.symbol;
      assert v.symbol in known;
      var c :| c in candidates && c.symbol == v.symbol;
      var j :| 0 <= j < |candidates| && candidates[j] == c;
      assert Symbols(candidates)[j] == v.symbol;
    }
  }

  /** The whole leaderboard before truncation. */
  function Board(candidates: seq<Candidate>, answer: Answer): seq<Row> {
    var ordered := ByComposite(candidates);
    match answer
    case Unavailable => Plain(ordered, 1)
    case Ordering(verdicts) =>
      MentionsAreKnown(verdicts, ordered);
      Merged(FirstMentions(verdicts, set c | c in ordered :: c.symbol), ordered)
  }

  lemma {:induction false} NothingKnown(ordering: seq<Verdict>)
    ensures FirstMentions(ordering, {}) == []
  {
    if ordering != [] {
      NothingKnown(ordering[..|ordering| - 1]);
    }
  }

  lemma EmptyBoard(candidates: seq<Candidate>, answer: Answer)
    requires ByComposite(candidates) == []
    ensures Board(candidates, answer) == []
  {
    if answer.Ordering? {
      assert (set c | c in ByComposite(candidates) :: c.symbol) == {};
      NothingKnown(answer.verdicts);
    }
  }

  /** A failed ranker never fails the screen: it falls back to the composite order. */
  method Rank(candidates: seq<Candidate>, limit: Option<int>, answer: Answer) returns (ranking: Ranking)
    ensures ranking.rows == Truncated(Board(candidates, answer), limit)
    ensures ranking.considered == |candidates|
    ensures ranking.rankedByAgent <==> candidates != [] && answer.Ordering?
  {
    var ordered := ByComposite(candidates);
    BetterIsOrder();
    SortIsSortedPermutation(candidates, Better);
    if ordered == [] {
      EmptyBoard(candidates, answer);
      return Ranking([], 0, false);
    }
    match answer
    case Unavailable =>
      ranking := Ranking(Truncated(Plain(ordered, 1), limit), |ordered|, false);
    case Ordering(model) =>
      var verdicts := Validate(model, ordered);
      MentionsAreKnown(model, ordered);
      var rows := Merge(verdicts, ordered);
      ranking := Ranking(Truncated(rows, limit), |ordered|, true);
  }

  // Nothing lost, nothing invented.

  predicate DistinctSymbols(candidates: seq<Candidate>) { Distinct(Symbols(candidates)) }

  lemma {:induction false} SplitBySymbol(candidates: seq<Candidate>, symbols: set<string>)
    ensures multiset(candidates) == multiset(Named(candidates, symbols)) + multiset(Others(candidates, symbols))
    ensures forall c :: c in Named(candidates, symbols) <==> c in candidates && c.symbol in symbols
    ensures forall c :: c in Others(candidates, symbols) <==> c in candidates && c.symbol !in symbols
  {
    if candidates != [] {
      SplitBySymbol(candidates[1..], symbols);
      assert candidates == [candidates[0]] + candidates[1..];
    }
  }

  lemma {:induction false} SymbolsOfPermutation(xs: seq<Candidate>, ys: seq<Candidate>)
    requires multiset(xs) == multiset(ys)
    ensures multiset(Symbols(xs)) == multiset(Symbols(ys))
    decreases |xs|
  {
    SameMembers(xs, ys);
    if xs != [] {
      assert xs[0] in ys;
      var i :| 0 <= i < |ys| && ys[i] == xs[0];
      var x, front, back := xs[0], ys[..i], ys[i + 1..];
      RemoveOne(xs, ys, i);
      SymbolsOfPermutation(xs[1..], front + back);
      assert Symbols(xs) == [x.symbol] + Symbols(xs[1..]);
      assert Symbols(ys) == Symbols(front) + ([x.symbol] + Symbols(back));
      assert Symbols(front + back) == Symbols(front) + Symbols(back);
      MovedToFront(Symbols(front), x.symbol, Symbols(back));
    }
  }

  /** No symbol in `symbols` is shared by two candidates. */
  predicate Unshared(candidates: seq<Candidate>, symbols: set<string>) {
    candidates == []
    || ((candidates[0].symbol in symbols ==> candidates[0].symbol !in Symbols(candidates[1..]))
      && Unshared(candidates[1..], symbols))
  }

  lemma {:induction false} NamedSymbols(candidates: seq<Candidate>, symbols: set<string>, symbol: string)
    requires symbol in symbols
    ensures symbol in Symbols(Named(candidates, symbols)) <==> symbol in Symbols(candidates)
  {
    SplitBySymbol(candidates, symbols);
    SymbolPresent(candidates, symbol);
    SymbolPresent(Named(candidates, symbols), symbol);
  }

  lemma NamedCons(first: Candidate, rest: seq<Candidate>, symbols: set<string>)
    ensures DistinctSymbols(Named([first] + rest, symbols))
            <==> (first.symbol in symbols ==> first.symbol !in Symbols(rest)) && DistinctSymbols(Named(rest, symbols))
  {
    var named := Named(rest, symbols);
    assert ([first] + rest)[1..] == rest;
    if first.symbol in symbols {
      NamedSymbols(rest, symbols, first.symbol);
      assert Symbols([first] + named) == [first.symbol] + Symbols(named);
      hide Distinct, Symbols;
      ConsDistinct(first.symbol, Symbols(named));
    } else {
      assert Named([first] + rest, symbols) == named;
    }
  }

  lemma {:induction false} NamedDistinct(candidates: seq<Candidate>, symbols: set<string>)
    ensures DistinctSymbols(Named(candidates, symbols)) <==> Unshared(candidates, symbols)
  {
    if candidates != [] {
      NamedDistinct(candidates[1..], symbols);
      NamedCons(candidates[0], candidates[1..], symbols);
      assert candidates == [candidates[0]] + candidates[1..];
    }
  }

  lemma ConsDistinct<T>(x: T, xs: seq<T>)
    ensures Distinct([x] + xs) <==> x !in xs && Distinct(xs)
  {
    var all := [x] + xs;
    assert all[0] == x && forall j | 0 <= j < |xs| :: xs[j] == all[j + 1];
    if Distinct(all) {
      forall i, j | 0 <= i < j < |xs|
        ensures xs[i] != xs[j]
      {
        assert all[i + 1] != all[j + 1];
      }
    }
  }

  lemma SymbolPresent(candidates: seq<Candidate>, symbol: string)
    ensures symbol in Symbols(candidates) <==> exists c | c in candidates :: c.symbol == symbol
  {
    if symbol in Symbols(candidates) {
      var i :| 0 <= i < |candidates| && Symbols(candidates)[i] == symbol;
      assert candidates[i] in candidates;
    }
    if c :| c in candidates && c.symbol == symbol {
      var i :| 0 <= i < |candidates| && candidates[i] == c;
      assert Symbols(candidates)[i] == symbol;
    }
  }

  lemma DistinctBySymbol(candidates: seq<Candidate>)
    requires DistinctSymbols(candidates)
    ensures Distinct(candidates)
    ensures forall c, d | c in candidates && d in candidates && c.symbol == d.symbol :: c == d
  {
    forall i, j | 0 <= i < j < |candidates|
      ensures candidates[i].symbol != candidates[j].symbol
    {
      assert Symbols(candidates)[i] != Symbols(candidates)[j];
    }
  }

  lemma WrittenMembers(verdicts: seq<Verdict>, candidates: seq<Candidate>, c: Candidate)
    requires forall v | v in verdicts :: v.symbol in Symbols(candidates)
    requires forall d, e | d in candidates && e in candidates && d.symbol == e.symbol
             && d.symbol in Ranked(verdicts) :: d == e
    ensures c in CandidatesOf(WrittenUp(verdicts, candidates)) <==> c in candidates && c.symbol in Ranked(verdicts)
  {
    var written := CandidatesOf(WrittenUp(verdicts, candidates));
    assert forall i | 0 <= i < |verdicts| :: written[i] == Lookup(candidates, verdicts[i].symbol);
    if c in written {
      var i :| 0 <= i < |verdicts| && written[i] == c;
      assert verdicts[i] in verdicts;
    }
    if c in candidates && c.symbol in Ranked(verdicts) {
      var v :| v in verdicts && v.symbol == c.symbol;
      var i :| 0 <= i < |verdicts| && verdicts[i] == v;
      assert written[i] in candidates && written[i] == c;
    }
  }

  lemma WrittenMatchesNamed(verdicts: seq<Verdict>, candidates: seq<Candidate>)
    requires Distinct(VerdictSymbols(verdicts)) && forall v | v in verdicts :: v.symbol in Symbols(candidates)
    requires DistinctSymbols(Named(candidates, Ranked(verdicts)))
    ensures multiset(CandidatesOf(WrittenUp(verdicts, candidates))) == multiset(Named(candidates, Ranked(verdicts)))
  {
    var written, named := CandidatesOf(WrittenUp(verdicts, candidates)), Named(candidates, Ranked(verdicts));
    assert Symbols(written) == VerdictSymbols(verdicts);
    hide Distinct, Named, Others, Ranked, Merged, WrittenUp, CandidatesOf, Symbols, VerdictSymbols;
    SplitBySymbol(candidates, Ranked(verdicts));
    DistinctBySymbol(written);
    DistinctBySymbol(named);
    forall c
      ensures c in written <==> c in named
    {
      WrittenMembers(verdicts, candidates, c);
    }
    SameDistinctMembers(written, named);
  }

  lemma SameRemainder<T>(a: multiset<T>, b: multiset<T>, rest: multiset<T>)
    ensures a + rest == b + rest <==> a == b
  {
    assert (a + rest) - rest == a && (b + rest) - rest == b;
  }

  /**
   * Merging loses and invents nothing exactly when no written-up symbol is ambiguous: the merged rows
   * hold a permutation of the candidates if and only if no two candidates share a ranked symbol.
   */
  lemma MergeIsPermutationExactly(verdicts: seq<Verdict>, candidates: seq<Candidate>)
    requires Distinct(VerdictSymbols(verdicts)) && forall v | v in verdicts :: v.symbol in Symbols(candidates)
    ensures multiset(CandidatesOf(Merged(verdicts, candidates))) == multiset(candidates) <==>
            Unshared(candidates, Ranked(verdicts))
  {
    var ranked := Ranked(verdicts);
    var written, named, others :=
      CandidatesOf(WrittenUp(verdicts, candidates)), Named(candidates, ranked), Others(candidates, ranked);
    assert CandidatesOf(Merged(verdicts, candidates)) == written + others;
    assert Symbols(written) == VerdictSymbols(verdicts);
    hide Unshared, Distinct, Named, Others, Ranked, Merged, WrittenUp, CandidatesOf, Symbols, VerdictSymbols;
    SplitBySymbol(candidates, ranked);
    NamedDistinct(candidates, ranked);
    assert multiset(written + others) == multiset(written) + multiset(others);
    SameRemainder(multiset(written), multiset(named), multiset(others));
    if multiset(written) == multiset(named) {
      SymbolsOfPermutation(written, named);
      RearrangedDistinct(Symbols(written), Symbols(named));
    }
    if DistinctSymbols(named) {
      WrittenMatchesNamed(verdicts, candidates);
    }
  }

  predicate Sequential(rows: seq<Row>) { forall i | 0 <= i < |rows| :: rows[i].rank == i + 1 }

  /** The first `written` rows carry the verdict on their own symbol; the rest carry none and follow the
   * deterministic order.
   */
  predicate WrittenThenPlain(rows: seq<Row>, written: nat) {
    && written <= |rows|
    && (forall i | 0 <= i < written ::
      rows[i].verdict.Some? && rows[i].verdict.value.symbol == rows[i].candidate.symbol)
    && (forall i | written <= i < |rows| :: rows[i].verdict.None?)
    && (forall i, j | written <= i < j < |rows| :: Better(rows[i].candidate, rows[j].candidate))
  }

  lemma FirstIsBest(first: Candidate, rest: seq<Candidate>)
    requires SortedBy([first] + rest, Better)
    ensures SortedBy(rest, Better) && forall c | c in rest :: Better(first, c)
  {
    hide Better;
    var all := [first] + rest;
    forall i, j | 0 <= i < j < |rest|
      ensures Better(rest[i], rest[j])
    {
      assert rest[i] == all[i + 1] && rest[j] == all[j + 1];
    }
    forall c | c in rest
      ensures Better(first, c)
    {
      var j :| 0 <= j < |rest| && rest[j] == c;
      assert all[0] == first && all[j + 1] == c;
    }
  }

  lemma BestFirst(first: Candidate, rest: seq<Candidate>)
    requires SortedBy(rest, Better) && forall c | c in rest :: Better(first, c)
    ensures SortedBy([first] + rest, Better)
  {
    hide Better;
  }

  lemma {:induction false} OthersSorted(candidates: seq<Candidate>, symbols: set<string>)
    requires SortedBy(candidates, Better)
    ensures SortedBy(Others(candidates, symbols), Better)
  {
    hide Better, SortedBy;
    if candidates != [] {
      var first, rest := candidates[0], candidates[1..];
      assert candidates == [first] + rest;
      FirstIsBest(first, rest);
      OthersSorted(rest, symbols);
      SplitBySymbol(rest, symbols);
      BestFirst(first, Others(rest, symbols));
      assert Others(candidates, symbols) == if first.symbol in symbols then Others(rest, symbols)
        else [first] + Others(rest, symbols);
    }
  }

  lemma SortedDistinctSymbols(candidates: seq<Candidate>)
    requires DistinctSymbols(candidates)
    ensures DistinctSymbols(ByComposite(candidates)) && multiset(ByComposite(candidates)) == multiset(candidates)
    ensures SortedBy(ByComposite(candidates), Better)
  {
    BetterIsOrder();
    hide Better;
    SortIsSortedPermutation(candidates, Better);
    SymbolsOfPermutation(candidates, ByComposite(candidates));
    RearrangedDistinct(Symbols(candidates), Symbols(ByComposite(candidates)));
  }

  lemma {:induction false} DistinctUnshared(candidates: seq<Candidate>, symbols: set<string>)
    requires DistinctSymbols(candidates)
    ensures Unshared(candidates, symbols)
  {
    if candidates != [] {
      assert Symbols(candidates) == [candidates[0].symbol] + Symbols(candidates[1..]);
      ConsDistinct(candidates[0].symbol, Symbols(candidates[1..]));
      DistinctUnshared(candidates[1..], symbols);
    }
  }

  lemma MergedShape(verdicts: seq<Verdict>, candidates: seq<Candidate>)
    requires SortedBy(candidates, Better) && forall v | v in verdicts :: v.symbol in Symbols(candidates)
    ensures Sequential(Merged(verdicts, candidates)) && WrittenThenPlain(Merged(verdicts, candidates), |verdicts|)
  {
    OthersSorted(candidates, Ranked(verdicts));
    hide Better, Others;
    var rows := Merged(verdicts, candidates);
    assert forall i | |verdicts| <= i < |rows| ::
      rows[i].candidate == Others(candidates, Ranked(verdicts))[i - |verdicts|];
  }

  /**
   * The leaderboard neither loses nor invents a symbol. Whatever ordering the model returns, or none, the rows
   * before truncation are a permutation of the candidates ranked 1..n, the written-up ones first, in the order of
   * their first mention, and the others by composite and then symbol.
   */
  lemma LeaderboardIsExact(candidates: seq<Candidate>, answer: Answer) returns (written: seq<Verdict>)
    requires DistinctSymbols(candidates)
    ensures multiset(CandidatesOf(Board(candidates, answer))) == multiset(candidates)
    ensures Sequential(Board(candidates, answer)) && WrittenThenPlain(Board(candidates, answer), |written|)
    ensures forall i | 0 <= i < |written| :: Board(candidates, answer)[i].verdict == Some(written[i])
    ensures written == if answer.Ordering? then FirstMentions(answer.verdicts, set s | s in Symbols(candidates)) else []
    ensures forall i, j | |written| <= i < j < |Board(candidates, answer)| ::
              Outranks(Board(candidates, answer)[i].candidate, Board(candidates, answer)[j].candidate)
  {
    hide Outranks;
    forall a, b
      ensures Better(a, b) <==> Outranks(a, b)
    {
      BetterOutranks(a, b);
    }
    var ordered := ByComposite(candidates);
    SortedDistinctSymbols(candidates);
    match answer
    case Unavailable =>
      written := [];
      PlainBoard(ordered);
    case Ordering(verdicts) =>
      var known := set c | c in ordered :: c.symbol;
      KnownSymbols(candidates, ordered);
      written := FirstMentions(verdicts, known);
      MentionsAreKnown(verdicts, ordered);
      var at := ValidationIsExact(verdicts, known);
      hide Better, ByComposite, Others, WrittenThenPlain, Sequential, Distinct, FirstMentions, CandidatesOf, Unshared;
      DistinctUnshared(ordered, Ranked(written));
      MergeIsPermutationExactly(written, ordered);
      MergedShape(written, ordered);
  }

  lemma PlainBoard(ordered: seq<Candidate>)
    requires SortedBy(ordered, Better)
    ensures CandidatesOf(Plain(ordered, 1)) == ordered
    ensures Sequential(Plain(ordered, 1)) && WrittenThenPlain(Plain(ordered, 1), 0)
  {
    hide Better;
    assert CandidatesOf(Plain(ordered, 1)) == ordered;
  }

  lemma KnownSymbols(candidates: seq<Candidate>, ordered: seq<Candidate>)
    requires multiset(candidates) == multiset(ordered)
    ensures (set c | c in ordered :: c.symbol) == (set s | s in Symbols(candidates))
  {
    SameMembers(candidates, ordered);
    var known, named := set c | c in ordered :: c.symbol, set s | s in Symbols(candidates);
    forall s
      ensures s in known <==> s in named
    {
      SymbolPresent(candidates, s);
    }
  }

  /** Two screens over the same candidates, in whatever order they were given, produce the same leaderboard. */
  lemma LeaderboardIgnoresInputOrder(candidates: seq<Candidate>, shuffled: seq<Candidate>, answer: Answer)
    requires multiset(candidates) == multiset(shuffled)
    requires forall c, d | c in candidates && d in candidates && c.symbol == d.symbol && c.composite == d.composite ::
             c == d
    ensures Board(candidates, answer) == Board(shuffled, answer)
  {
    BetterIsOrder();
    SortIsSortedPermutation(candidates, Better);
    SortIsSortedPermutation(shuffled, Better);
    forall c, d | c in ByComposite(candidates) && d in ByComposite(candidates) && Better(c, d) && Better(d, c)
      ensures c == d
    {
      StringLeqTotal(c.symbol, d.symbol);
    }
    SortedArrangementUnique(ByComposite(candidates), ByComposite(shuffled), Better);
  }

  /** Truncation keeps a prefix, and so a leaderboard still numbered from 1 without gaps. */
  lemma TruncationKeepsPrefix(rows: seq<Row>, limit: Option<int>)
    requires Sequential(rows)
    ensures Truncated(rows, limit) <= rows && Sequential(Truncated(rows, limit))
    ensures limit.None? ==> Truncated(rows, limit) == rows
    ensures limit.Some? && limit.value >= 0 ==>
            |Truncated(rows, limit)| == if limit.value < |rows| then limit.value else |rows|
  {
    if limit.Some? {
      TakeIsPrefix(rows, limit.value);
    }
  }
}
