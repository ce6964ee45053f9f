/** Screening a basket: normalise and de-duplicate, run each symbol once, partition, rank. */
module Screening {
  import opened Numeric
  import opened Sorting
  import opened Text
  import opened Leaderboard

  /** A symbol's consensus run, reduced to what becomes its candidate, or the exception it raised. */
  datatype Settled = Done(composite: real, detail: string) | Raised(error: string)

  datatype SymbolFailure = SymbolFailure(symbol: string, error: string)

  datatype Screen = Screen(requested: seq<string>, outcomes: map<string, Settled>, failures: seq<SymbolFailure>,
    ranking: Ranking)

  function UniqueOf(symbols: seq<string>): seq<string> {
    if symbols == [] then []
    else
      var kept, symbol := UniqueOf(symbols[..|symbols| - 1]), Normalize(symbols[|symbols| - 1]);
      if symbol == "" || symbol in kept then kept else kept + [symbol]
  }

  method Unique(symbols: seq<string>) returns (kept: seq<string>)
    ensures kept == UniqueOf(symbols)
  {
    var seen: set<string> := {};
    kept := [];
    for i := 0 to |symbols|
      invariant kept == UniqueOf(symbols[..i])
      invariant forall s :: s in seen <==> s in kept
    {
      assert symbols[..i + 1][..i] == symbols[..i];
      var normalized := Normalize(symbols[i]);
      if normalized != "" && normalized !in seen {
        seen := seen + {normalized};
        kept := kept + [normalized];
      }
    }
    assert symbols[..|symbols|] == symbols;
  }

  /** Ticking a box twice changes nothing: each non-blank symbol once, normalised, in order of first appearance. */
  lemma {:induction false} UniqueIsExact(symbols: seq<string>) returns (at: seq<nat>)
    ensures var kept := UniqueOf(symbols);
            && Distinct(kept) && |at| == |kept|
            && (forall s :: s in kept <==> s != "" && exists r | r in symbols :: Normalize(r) == s)
            && (forall i | 0 <= i < |at| :: at[i] < |symbols| && kept[i] == Normalize(symbols[at[i]]))
            && (forall i, j | 0 <= i < j < |at| :: at[i] < at[j])
            && (forall i, k | 0 <= i < |at| && 0 <= k < at[i] :: Normalize(symbols[k]) != kept[i])
  {
    hide Normalize;
    if symbols == [] {
      at := [];
    } else {
      var front, last := symbols[..|symbols| - 1], symbols[|symbols| - 1];
      assert symbols == front + [last];
      at := UniqueIsExact(front);
      var kept, symbol := UniqueOf(front), Normalize(last);
      if symbol != "" && symbol !in kept {
        DistinctSnoc(kept, symbol);
        forall k | 0 <= k < |front|
          ensures Normalize(front[k]) != symbol
        {
          assert front[k] in front;
        }
        at := at + [|front|];
      }
    }
  }

  lemma {:induction false} UniqueOfDistinct(symbols: seq<string>)
    requires Distinct(symbols) && forall s | s in symbols :: s != "" && Normalize(s) == s
    ensures UniqueOf(symbols) == symbols
  {
    hide Normalize;
    if symbols != [] {
      var front, last := symbols[..|symbols| - 1], symbols[|symbols| - 1];
      assert symbols == front + [last];
      DistinctSnoc(front, last);
      assert forall s | s in front :: s in symbols;
      assert last in symbols;
      UniqueOfDistinct(front);
    }
  }

  /** Resubmitting what a screen reported as requested changes nothing. */
  lemma UniqueIsIdempotent(symbols: seq<string>)
    ensures UniqueOf(UniqueOf(symbols)) == UniqueOf(symbols)
  {
    var at := UniqueIsExact(symbols);
    forall s | s in UniqueOf(symbols)
      ensures Normalize(s) == s
    {
      var r :| r in symbols && Normalize(r) == s;
      NormalizeIdempotent(r);
    }
    UniqueOfDistinct(UniqueOf(symbols));
  }

  // Partitioning the outcomes.

  function CandidatesFrom(requested: seq<string>, settled: string -> Settled): seq<Candidate> {
    if requested == [] then []
    else
      var front, symbol := CandidatesFrom(requested[..|requested| - 1], settled), requested[|requested| - 1];
      if settled(symbol).Raised? then front
        else front + [Candidate(symbol, settled(symbol).composite, settled(symbol).detail)]
  }

  function FailuresFrom(requested: seq<string>, settled: string -> Settled): seq<SymbolFailure> {
    if requested == [] then []
    else
      var front, symbol := FailuresFrom(requested[..|requested| - 1], settled), requested[|requested| - 1];
      if settled(symbol).Raised? then front + [SymbolFailure(symbol, settled(symbol).error)] else front
  }

  /** What each requested symbol settled to; a symbol settles once, since no symbol is requested twice. */
  method Collect(requested: seq<string>, settled: string -> Settled)
      returns (outcomes: map<string, Settled>, failures: seq<SymbolFailure>, candidates: seq<Candidate>)
    ensures outcomes == map s | s in requested && settled(s).Done? :: settled(s)
    ensures failures == FailuresFrom(requested, settled) && candidates == CandidatesFrom(requested, settled)
  {
    outcomes, failures, candidates := map[], [], [];
    for i := 0 to |requested|
      invariant outcomes == map s | s in requested[..i] && settled(s).Done? :: settled(s)
      invariant failures == FailuresFrom(requested[..i], settled)
                && candidates == CandidatesFrom(requested[..i], settled)
    {
      assert requested[..i + 1][..i] == requested[..i];
      assert requested[..i + 1] == requested[..i] + [requested[i]];
      var symbol := requested[i];
      var outcome := settled(symbol);
      match outcome
      case Raised(error) =>
        failures := failures + [SymbolFailure(symbol, error)];
      case Done(composite, detail) =>
        outcomes := outcomes[symbol := outcome];
        candidates := candidates + [Candidate(symbol, composite, detail)];
    }
    assert requested[..|requested|] == requested;
  }

  lemma {:induction false} PartitionIsExact(requested: seq<string>, settled: string -> Settled)
    requires Distinct(requested)
    ensures DistinctSymbols(CandidatesFrom(requested, settled)) && Distinct(FailuresFrom(requested, settled))
    ensures forall s :: s in Symbols(CandidatesFrom(requested, settled)) <==> s in requested && settled(s).Done?
    ensures forall f ::
            f in FailuresFrom(requested, settled) <==> f.symbol in requested && settled(f.symbol) == Raised(f.error)
    ensures |CandidatesFrom(requested, settled)| + |FailuresFrom(requested, settled)| == |requested|
    ensures forall c ::
            c in CandidatesFrom(requested, settled) <==>
              c.symbol in requested && settled(c.symbol) == Done(c.composite, c.detail)
  {
    if requested != [] {
      var front, symbol := requested[..|requested| - 1], requested[|requested| - 1];
      assert requested == front + [symbol];
      DistinctSnoc(front, symbol);
      PartitionIsExact(front, settled);
      hide Distinct;
      var candidates, failures := CandidatesFrom(front, settled), FailuresFrom(front, settled);
      match settled(symbol)
      case Raised(error) =>
        DistinctSnoc(failures, SymbolFailure(symbol, error));
      case Done(composite, detail) =>
        assert Symbols(candidates + [Candidate(symbol, composite, detail)]) == Symbols(candidates) + [symbol];
        DistinctSnoc(Symbols(candidates), symbol);
    }
  }

  /** The use case; the constructor clamps both configured sizes to at least one. */
  method Execute(symbols: seq<string>, maxSymbols: int, topN: Option<int>, defaultTopN: int,
    settled: string -> Settled, answer: Answer)
      returns (screen: Screen)
    requires maxSymbols >= 1 && defaultTopN >= 1
    ensures screen.requested == Take(UniqueOf(symbols), maxSymbols)
    ensures screen.outcomes == map s | s in screen.requested && settled(s).Done? :: settled(s)
    ensures screen.failures == FailuresFrom(screen.requested, settled)
    ensures screen.ranking.rows ==
            Truncated(Board(CandidatesFrom(screen.requested, settled), answer),
              Some(if topN.Some? then topN.value else defaultTopN))
    ensures screen.ranking.considered == |CandidatesFrom(screen.requested, settled)|
  {
    var unique := Unique(symbols);
    var requested := Take(unique, maxSymbols);
    var outcomes, failures, candidates := Collect(requested, settled);
    var limit := if topN.Some? then topN.value else defaultTopN;
    var ranking := Rank(candidates, Some(limit), answer);
    screen := Screen(requested, outcomes, failures, ranking);
  }

  lemma PrefixDistinct<T>(xs: seq<T>, limit: int)
    requires Distinct(xs)
    ensures Distinct(Take(xs, limit))
  {
    TakeIsPrefix(xs, limit);
  }

  /**
   * End to end: every requested symbol is exactly one of an outcome or a failure, and the leaderboard, before
   * truncation, holds each outcome's symbol exactly once and no failed or unrequested one, whatever the ranker
   * answered.
   */
  lemma EverySymbolIsAccountedFor(symbols: seq<string>, maxSymbols: int, settled: string -> Settled, answer: Answer)
    requires maxSymbols >= 1
    ensures var requested := Take(UniqueOf(symbols), maxSymbols);
            var rows := Board(CandidatesFrom(requested, settled), answer);
            && Distinct(requested) && Sequential(rows)
            && |rows| + |FailuresFrom(requested, settled)| == |requested|
            && DistinctSymbols(CandidatesOf(rows))
            && (forall s :: s in Symbols(CandidatesOf(rows)) <==> s in requested && settled(s).Done?)
            && (forall s | s in requested ::
              s in Symbols(CandidatesOf(rows)) <==> forall f | f in FailuresFrom(requested, settled) :: f.symbol != s)
  {
    var requested := Take(UniqueOf(symbols), maxSymbols);
    var at := UniqueIsExact(symbols);
    PrefixDistinct(UniqueOf(symbols), maxSymbols);
    PartitionIsExact(requested, settled);
    var candidates := CandidatesFrom(requested, settled);
    var rows := Board(candidates, answer);
    var written := LeaderboardIsExact(candidates, answer);
    hide Board, Distinct, Normalize;
    SymbolsOfPermutation(candidates, CandidatesOf(rows));
    SameMembers(candidates, CandidatesOf(rows));
    SameMembers(Symbols(candidates), Symbols(CandidatesOf(rows)));
    RearrangedDistinct(Symbols(candidates), Symbols(CandidatesOf(rows)));
    forall s | s in requested && settled(s).Raised?
      ensures exists f | f in FailuresFrom(requested, settled) :: f.symbol == s
    {
      assert SymbolFailure(s, settled(s).error) in FailuresFrom(requested, settled);
    }
  }
}
