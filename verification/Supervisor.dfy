/**
 * The supervisor graph: two phases of agents, dispatched superstep by superstep.
 * An agent is an arbitrary success or domain failure; updates merge in any order.
 */
module Supervisor {
  import opened Numeric
  import opened Signals
  import opened Sorting
  import opened Text
  import V = Voting

  datatype Agent =
    | TechnicalAnalysis | ChartPattern | MarketResearch | FundamentalAnalysis | NewsAnalysis | SentimentAnalysis
    | ContinuousLearning

  const ANALYSIS_AGENTS: seq<Agent> :=
    [TechnicalAnalysis, ChartPattern, MarketResearch, FundamentalAnalysis, NewsAnalysis, SentimentAnalysis]

  const FEEDBACK_AGENTS: seq<Agent> := [ContinuousLearning]

  const ALL_AGENTS: seq<Agent> := ANALYSIS_AGENTS + FEEDBACK_AGENTS

  function Name(a: Agent): string {
    match a
    case TechnicalAnalysis => "technical_analysis"
    case ChartPattern => "chart_pattern"
    case MarketResearch => "market_research"
    case FundamentalAnalysis => "fundamental_analysis"
    case NewsAnalysis => "news_analysis"
    case SentimentAnalysis => "sentiment_analysis"
    case ContinuousLearning => "continuous_learning"
  }

  /** What a report says about direction, when it says anything. */
  datatype View = View(direction: Direction, confidence: real)

  datatype Report = Report(view: Option<View>)

  datatype Outcome = Success(report: Report) | DomainFailure(error: string)

  datatype Failure = Failure(agent: Agent, error: string)

  datatype Step = Step(agent: Agent, feedback: bool, ok: bool)

  datatype State = State(requested: seq<Agent>, reports: map<Agent, Report>, completed: seq<Agent>,
    failures: seq<Failure>, steps: seq<Step>)

  datatype Resolution = Selected(agents: seq<Agent>) | UnknownAgents(names: set<string>)

  // Selecting agents.

  function Filter(agents: seq<Agent>, keep: set<Agent>): (kept: seq<Agent>)
    ensures forall a :: a in kept <==> a in agents && a in keep
  {
    if agents == [] then []
    else (if agents[0] in keep then [agents[0]] else []) + Filter(agents[1..], keep)
  }

  /** The names that were asked for and the agents that go by them. */
  function Asked(requested: seq<string>): set<string> { set r | r in requested :: StripLower(r) }

  function AgentsAsked(requested: seq<string>): set<Agent> { set a | a in ALL_AGENTS && Name(a) in Asked(requested) }

  function ResolveAgents(requested: seq<string>): Resolution {
    if requested == [] then Selected(ALL_AGENTS)
    else
      var unknown := Asked(requested) - (set a | a in ALL_AGENTS :: Name(a));
      if unknown != {} then UnknownAgents(unknown) else Selected(Filter(ALL_AGENTS, AgentsAsked(requested)))
  }

  lemma {:induction false} FilterDistinct(agents: seq<Agent>, keep: set<Agent>)
    requires Distinct(agents)
    ensures Distinct(Filter(agents, keep))
  {
    if agents != [] {
      FilterDistinct(agents[1..], keep);
      var rest := Filter(agents[1..], keep);
      assert agents[0] !in rest;
    }
  }

  lemma EveryAgentListed(a: Agent)
    ensures a in ALL_AGENTS && (a in ANALYSIS_AGENTS <==> a != ContinuousLearning)
    ensures Distinct(ALL_AGENTS) && Distinct(ANALYSIS_AGENTS)
  {
    assert ALL_AGENTS[0] == TechnicalAnalysis && ALL_AGENTS[1] == ChartPattern && ALL_AGENTS[2] == MarketResearch;
    assert ALL_AGENTS[3] == FundamentalAnalysis && ALL_AGENTS[4] == NewsAnalysis && ALL_AGENTS[5] == SentimentAnalysis;
    assert ALL_AGENTS[6] == ContinuousLearning;
  }

  /** The place of an agent in the canonical order. */
  function Place(a: Agent): nat {
    match a
    case TechnicalAnalysis => 0
    case ChartPattern => 1
    case MarketResearch => 2
    case FundamentalAnalysis => 3
    case NewsAnalysis => 4
    case SentimentAnalysis => 5
    case ContinuousLearning => 6
  }

  predicate Canonical(agents: seq<Agent>) { forall i, j | 0 <= i < j < |agents| :: Place(agents[i]) < Place(agents[j]) }

  lemma AllAgentsCanonical()
    ensures forall i | 0 <= i < |ALL_AGENTS| :: Place(ALL_AGENTS[i]) == i
    ensures Canonical(ALL_AGENTS)
  {
    assert ALL_AGENTS[0] == TechnicalAnalysis && ALL_AGENTS[1] == ChartPattern && ALL_AGENTS[2] == MarketResearch;
    assert ALL_AGENTS[3] == FundamentalAnalysis && ALL_AGENTS[4] == NewsAnalysis && ALL_AGENTS[5] == SentimentAnalysis;
    assert ALL_AGENTS[6] == ContinuousLearning;
  }

  lemma {:induction false} FilterCanonical(agents: seq<Agent>, keep: set<Agent>)
    requires Canonical(agents)
    ensures Canonical(Filter(agents, keep))
  {
    hide Place;
    if agents != [] {
      var rest := agents[1..];
      FilterCanonical(rest, keep);
      forall a | a in Filter(rest, keep)
        ensures Place(agents[0]) < Place(a)
      {
        var i :| 0 <= i < |rest| && rest[i] == a;
        assert agents[i + 1] == a;
      }
    }
  }

  /** No agent goes by this name, however it is cased or padded. */
  predicate Nobody(name: string) { forall a :: Name(a) != StripLower(name) }

  lemma NamesKnown(names: set<string>)
    ensures var known := set a | a in ALL_AGENTS :: Name(a);
            forall n :: n in names - known <==> n in names && forall a :: Name(a) != n
  {
    forall a
      ensures a in ALL_AGENTS
    {
      EveryAgentListed(a);
    }
  }

  lemma ResolvesInOrder(requested: seq<string>)
    ensures ResolveAgents(requested).Selected? ==>
            Canonical(ResolveAgents(requested).agents) && Distinct(ResolveAgents(requested).agents)
  {
    AllAgentsCanonical();
    EveryAgentListed(TechnicalAnalysis);
    hide Name, StripLower, Canonical, Distinct, Filter;
    FilterCanonical(ALL_AGENTS, AgentsAsked(requested));
    FilterDistinct(ALL_AGENTS, AgentsAsked(requested));
  }

  lemma RefusalIsExact(requested: seq<string>)
    ensures ResolveAgents(requested).UnknownAgents? <==> exists r | r in requested :: Nobody(r)
  {
    var names := Asked(requested);
    NamesKnown(names);
    hide Name, StripLower, Filter;
    var unknown := names - (set a | a in ALL_AGENTS :: Name(a));
    if unknown != {} {
      var n :| n in unknown;
      var r :| r in requested && StripLower(r) == n;
      assert Nobody(r);
    } else if requested != [] {
      forall r | r in requested
        ensures !Nobody(r)
      {
        assert StripLower(r) in names;
      }
    }
  }

  lemma SelectionIsExact(requested: seq<string>, a: Agent)
    requires ResolveAgents(requested).Selected?
    ensures a in ResolveAgents(requested).agents <==>
            requested == [] || exists r | r in requested :: StripLower(r) == Name(a)
  {
    EveryAgentListed(a);
    hide Name, StripLower;
    assert Name(a) in Asked(requested) <==> exists r | r in requested :: StripLower(r) == Name(a);
  }

  /** A selection is refused exactly for names no agent has; otherwise it is the named agents, once each, in
   * canonical order.
   */
  lemma ResolveIsExact(requested: seq<string>)
    ensures ResolveAgents(requested).UnknownAgents? <==> exists r | r in requested :: Nobody(r)
    ensures ResolveAgents(requested).Selected? ==>
              && Distinct(ResolveAgents(requested).agents) && Canonical(ResolveAgents(requested).agents)
              && forall a ::
                a in ResolveAgents(requested).agents <==>
                  requested == [] || exists r | r in requested :: StripLower(r) == Name(a)
  {
    hide Name, StripLower, ResolveAgents, Nobody, Distinct, Canonical;
    RefusalIsExact(requested);
    ResolvesInOrder(requested);
    if ResolveAgents(requested).Selected? {
      forall a
        ensures a in ResolveAgents(requested).agents <==>
                requested == [] || exists r | r in requested :: StripLower(r) == Name(a)
      {
        SelectionIsExact(requested, a);
      }
    }
  }

  // One superstep.

  function Initial(selected: seq<Agent>): State { State(selected, map[], [], [], []) }

  predicate HasAnalysis(s: State) { exists a | a in ANALYSIS_AGENTS :: a in s.reports }

  function Selection(s: State): seq<Agent> { if s.requested == [] then ALL_AGENTS else s.requested }

  function Pending(s: State, phase: seq<Agent>): seq<Agent> {
    Filter(phase, set a | a in Selection(s) && a !in s.completed && a !in s.reports)
  }

  /** The agents to dispatch next; nothing means the run is over. */
  function Route(s: State): seq<Agent> {
    var analysis := Pending(s, ANALYSIS_AGENTS);
    if analysis != [] then analysis
    else if HasAnalysis(s) then Pending(s, FEEDBACK_AGENTS)
    else []
  }

  /** One agent's update, merged: lists append, the report field is the agent's own. */
  function Merge(s: State, a: Agent, o: Outcome): State {
    match o
    case Success(report) =>
      s.(reports := s.reports[a := report], completed := s.completed + [a],
        steps := s.steps + [Step(a, a in FEEDBACK_AGENTS, true)])
    case DomainFailure(error) =>
      s.(completed := s.completed + [a], failures := s.failures + [Failure(a, error)],
        steps := s.steps + [Step(a, a in FEEDBACK_AGENTS, false)])
  }

  function MergeAll(s: State, order: seq<Agent>, outcome: Agent -> Outcome): State {
    if order == [] then s
      else Merge(MergeAll(s, order[..|order| - 1], outcome), order[|order| - 1], outcome(order[|order| - 1]))
  }

  // Whole runs: the merge order of each superstep is free.

  predicate Rearranges(order: seq<Agent>, agents: seq<Agent>) { multiset(order) == multiset(agents) }

  predicate Legal(s: State, orders: seq<seq<Agent>>, outcome: Agent -> Outcome)
    decreases |orders|
  {
    if orders == [] then true
    else
      var before := orders[..|orders| - 1];
      && Legal(s, before, outcome)
      && Route(After(s, before, outcome)) != []
      && Rearranges(orders[|orders| - 1], Route(After(s, before, outcome)))
  }

  function After(s: State, orders: seq<seq<Agent>>, outcome: Agent -> Outcome): State
    decreases |orders|
  {
    if orders == [] then s else MergeAll(After(s, orders[..|orders| - 1], outcome), orders[|orders| - 1], outcome)
  }

  predicate Finished(s: State, orders: seq<seq<Agent>>, outcome: Agent -> Outcome) {
    Legal(s, orders, outcome) && Route(After(s, orders, outcome)) == []
  }

  /** A domain failure becomes recorded state; every outcome leaves a step. */
  method Dispatch(s: State, a: Agent, o: Outcome) returns (t: State)
    ensures t == Merge(s, a, o)
  {
    var completed := s.completed + [a];
    match o
    case Success(report) =>
      t := s.(reports := s.reports[a := report], completed := completed,
        steps := s.steps + [Step(a, a in FEEDBACK_AGENTS, true)]);
    case DomainFailure(error) =>
      t := s.(completed := completed, failures := s.failures + [Failure(a, error)],
        steps := s.steps + [Step(a, a in FEEDBACK_AGENTS, false)]);
  }

  lemma MergeAllSnoc(s: State, order: seq<Agent>, a: Agent, outcome: Agent -> Outcome)
    ensures MergeAll(s, order + [a], outcome) == Merge(MergeAll(s, order, outcome), a, outcome(a))
  {
    assert (order + [a])[..|order|] == order;
  }

  /** All agents of one superstep, their updates arriving in any order at all. */
  method Superstep(s: State, agents: seq<Agent>, outcome: Agent -> Outcome) returns (t: State, order: seq<Agent>)
    ensures Rearranges(order, agents) && t == MergeAll(s, order, outcome)
  {
    t, order := s, [];
    var waiting := multiset(agents);
    while waiting != multiset{}
      invariant multiset(order) + waiting == multiset(agents)
      invariant t == MergeAll(s, order, outcome)
      decreases |waiting|
    {
      var a :| a in waiting;
      MergeAllSnoc(s, order, a, outcome);
      t := Dispatch(t, a, outcome(a));
      order := order + [a];
      waiting := waiting - multiset{a};
    }
  }

  method Run(selected: seq<Agent>, outcome: Agent -> Outcome) returns (final: State, orders: seq<seq<Agent>>)
    ensures Finished(Initial(selected), orders, outcome) && final == After(Initial(selected), orders, outcome)
  {
    final, orders := Initial(selected), [];
    var next := Route(final);
    while next != []
      invariant Legal(Initial(selected), orders, outcome) && final == After(Initial(selected), orders, outcome)
      invariant next == Route(final) && |orders| <= 2
      invariant |orders| == 2 ==> next == []
      decreases 2 - |orders|
    {
      var t, order := Superstep(final, next, outcome);
      assert (orders + [order])[..|orders|] == orders;
      AtMostTwoSupersteps(selected, orders + [order], outcome);
      final, orders := t, orders + [order];
      next := Route(final);
    }
  }

  // What merging does, whatever the order.

  function FailuresOf(order: seq<Agent>, outcome: Agent -> Outcome): seq<Failure> {
    if order == [] then []
    else
      var a := order[|order| - 1];
      FailuresOf(order[..|order| - 1], outcome) + if outcome(a).DomainFailure? then [Failure(a, outcome(a).error)]
        else []
  }

  function StepsOf(order: seq<Agent>, outcome: Agent -> Outcome): seq<Step> {
    if order == [] then [] else StepsOf(order[..|order| - 1], outcome) + [StepOf(order[|order| - 1], outcome)]
  }

  function StepOf(a: Agent, outcome: Agent -> Outcome): Step { Step(a, a in FEEDBACK_AGENTS, outcome(a).Success?) }

  function ReportsOf(order: seq<Agent>, outcome: Agent -> Outcome): map<Agent, Report> {
    map a | a in order && outcome(a).Success? :: outcome(a).report
  }

  /** The state is exactly what dispatching `done`, in that order, leaves behind. */
  ghost predicate Played(s: State, selected: seq<Agent>, done: seq<Agent>, outcome: Agent -> Outcome) {
    && s.requested == selected && s.completed == done
    && s.reports == ReportsOf(done, outcome)
    && s.failures == FailuresOf(done, outcome) && s.steps == StepsOf(done, outcome)
  }

  lemma ReportsSnoc(done: seq<Agent>, a: Agent, outcome: Agent -> Outcome)
    requires a !in done
    ensures ReportsOf(done + [a], outcome) ==
            if outcome(a).Success? then ReportsOf(done, outcome)[a := outcome(a).report] else ReportsOf(done, outcome)
  {
    assert forall b :: b in done + [a] <==> b in done || b == a;
  }

  lemma MergePlays(s: State, selected: seq<Agent>, done: seq<Agent>, a: Agent, outcome: Agent -> Outcome)
    requires Played(s, selected, done, outcome)
    requires a !in done
    ensures Played(Merge(s, a, outcome(a)), selected, done + [a], outcome)
  {
    hide ReportsOf;
    assert (done + [a])[..|done|] == done;
    ReportsSnoc(done, a, outcome);
  }

  lemma {:induction false} MergeAllPlays(s: State, selected: seq<Agent>, done: seq<Agent>, order: seq<Agent>,
    outcome: Agent -> Outcome)
    requires Played(s, selected, done, outcome) && Distinct(done + order)
    ensures Played(MergeAll(s, order, outcome), selected, done + order, outcome)
    decreases |order|
  {
    hide Played, Merge, Distinct;
    if order == [] {
      assert done + order == done;
    } else {
      var front, a := order[..|order| - 1], order[|order| - 1];
      assert done + order == (done + front) + [a];
      DistinctSnoc(done + front, a);
      MergeAllPlays(s, selected, done, front, outcome);
      MergePlays(MergeAll(s, front, outcome), selected, done + front, a, outcome);
    }
  }

  // The two phases.

  function Chosen(selected: seq<Agent>): seq<Agent> { if selected == [] then ALL_AGENTS else selected }

  function AnalysisChosen(selected: seq<Agent>): seq<Agent> { Filter(ANALYSIS_AGENTS, set a | a in Chosen(selected)) }

  /** Learning is due: it was selected and some selected analysis agent reports. */
  predicate LearningDue(selected: seq<Agent>, outcome: Agent -> Outcome) {
    ContinuousLearning in Chosen(selected) && exists a | a in AnalysisChosen(selected) :: outcome(a).Success?
  }

  lemma AnalysisChosenIs(selected: seq<Agent>)
    ensures Distinct(AnalysisChosen(selected))
    ensures forall a :: a in AnalysisChosen(selected) <==> a in Chosen(selected) && a != ContinuousLearning
  {
    EveryAgentListed(ContinuousLearning);
    FilterDistinct(ANALYSIS_AGENTS, set a | a in Chosen(selected));
    forall a
      ensures a in ANALYSIS_AGENTS <==> a != ContinuousLearning
    {
      EveryAgentListed(a);
    }
  }

  lemma FirstRoute(selected: seq<Agent>)
    ensures Route(Initial(selected)) == AnalysisChosen(selected)
  {
    var s := Initial(selected);
    assert (set a | a in Selection(s) && a !in s.completed && a !in s.reports) == (set a | a in Chosen(selected));
    if AnalysisChosen(selected) == [] {
      assert !HasAnalysis(s);
    }
  }

  lemma {:induction false} FilterNone(agents: seq<Agent>, keep: set<Agent>)
    requires forall a | a in agents :: a !in keep
    ensures Filter(agents, keep) == []
  {
    if agents != [] {
      FilterNone(agents[1..], keep);
    }
  }

  lemma NothingPending(s: State, selected: seq<Agent>)
    requires s.requested == selected && forall a | a in AnalysisChosen(selected) :: a in s.completed
    ensures Pending(s, ANALYSIS_AGENTS) == []
  {
    AnalysisChosenIs(selected);
    EveryAgentListed(ContinuousLearning);
    FilterNone(ANALYSIS_AGENTS, set a | a in Selection(s) && a !in s.completed && a !in s.reports);
  }

  lemma AnalysisSeen(s: State, selected: seq<Agent>, done: seq<Agent>, outcome: Agent -> Outcome)
    requires s.reports == ReportsOf(done, outcome)
    requires forall a | a in AnalysisChosen(selected) :: a in done
    requires forall a | a in done :: a in Chosen(selected)
    ensures HasAnalysis(s) <==> exists a | a in AnalysisChosen(selected) :: outcome(a).Success?
  {
    if a :| a in ANALYSIS_AGENTS && a in s.reports {
      assert a in AnalysisChosen(selected) && outcome(a).Success?;
    }
    if a :| a in AnalysisChosen(selected) && outcome(a).Success? {
      assert a in s.reports && a in ANALYSIS_AGENTS;
    }
  }

  lemma FeedbackPending(s: State)
    ensures Pending(s, FEEDBACK_AGENTS) ==
            if ContinuousLearning in Selection(s) && ContinuousLearning !in s.completed
              && ContinuousLearning !in s.reports
            then [ContinuousLearning] else []
  {
    var waiting := set a | a in Selection(s) && a !in s.completed && a !in s.reports;
    assert Filter([ContinuousLearning][1..], waiting) == [];
  }

  /** Once every selected analysis agent has completed, only learning can still be due. */
  lemma RouteAfterAnalysis(s: State, selected: seq<Agent>, done: seq<Agent>, outcome: Agent -> Outcome)
    requires Played(s, selected, done, outcome)
    requires forall a | a in AnalysisChosen(selected) :: a in done
    requires forall a | a in done :: a in Chosen(selected)
    ensures Route(s) ==
            if LearningDue(selected, outcome) && ContinuousLearning !in done then [ContinuousLearning] else []
  {
    hide Pending, AnalysisChosen, HasAnalysis;
    NothingPending(s, selected);
    AnalysisSeen(s, selected, done, outcome);
    FeedbackPending(s);
  }

  lemma AnalysisOrder(selected: seq<Agent>, order: seq<Agent>)
    requires Rearranges(order, AnalysisChosen(selected))
    ensures Distinct(order) && forall a :: a in order <==> a in Chosen(selected) && a != ContinuousLearning
    ensures forall a :: a in order <==> a in AnalysisChosen(selected)
  {
    AnalysisChosenIs(selected);
    hide AnalysisChosen, Distinct, Chosen;
    RearrangedDistinct(AnalysisChosen(selected), order);
    SameMembers(order, AnalysisChosen(selected));
  }

  lemma AfterAnalysis(selected: seq<Agent>, order: seq<Agent>, outcome: Agent -> Outcome)
    requires Rearranges(order, AnalysisChosen(selected))
    ensures Distinct(order) && forall a :: a in order <==> a in Chosen(selected) && a != ContinuousLearning
    ensures Played(MergeAll(Initial(selected), order, outcome), selected, order, outcome)
    ensures Route(MergeAll(Initial(selected), order, outcome)) ==
            if LearningDue(selected, outcome) then [ContinuousLearning] else []
  {
    assert Played(Initial(selected), selected, [], outcome);
    hide Played, Route, AnalysisChosen, MergeAll, LearningDue, Distinct, Chosen, Rearranges, Initial;
    AnalysisOrder(selected, order);
    assert [] + order == order;
    MergeAllPlays(Initial(selected), selected, [], order, outcome);
    RouteAfterAnalysis(MergeAll(Initial(selected), order, outcome), selected, order, outcome);
  }

  lemma AfterLearning(selected: seq<Agent>, order: seq<Agent>, outcome: Agent -> Outcome)
    requires Rearranges(order, AnalysisChosen(selected)) && LearningDue(selected, outcome)
    ensures Distinct(order + [ContinuousLearning])
    ensures var t := MergeAll(MergeAll(Initial(selected), order, outcome), [ContinuousLearning], outcome);
            Played(t, selected, order + [ContinuousLearning], outcome) && Route(t) == []
  {
    AfterAnalysis(selected, order, outcome);
    AnalysisChosenIs(selected);
    DistinctSnoc(order, ContinuousLearning);
    assert ContinuousLearning in Chosen(selected);
    hide Played, Route, AnalysisChosen, MergeAll, LearningDue;
    var s := MergeAll(Initial(selected), order, outcome);
    MergeAllPlays(s, selected, order, [ContinuousLearning], outcome);
    RouteAfterAnalysis(MergeAll(s, [ContinuousLearning], outcome), selected, order + [ContinuousLearning], outcome);
  }

  /** The only legal runs: nothing yet, the analysis phase, or analysis and then learning. */
  predicate Shape(selected: seq<Agent>, orders: seq<seq<Agent>>, outcome: Agent -> Outcome) {
    || orders == []
    || (|orders| == 1 && Rearranges(orders[0], AnalysisChosen(selected)) && orders[0] != [])
    || (|orders| == 2 && Rearranges(orders[0], AnalysisChosen(selected)) && orders[0] != []
      && LearningDue(selected, outcome) && orders[1] == [ContinuousLearning])
  }

  lemma LegalLast(s: State, orders: seq<seq<Agent>>, outcome: Agent -> Outcome)
    requires orders != [] && Legal(s, orders, outcome)
    ensures var before, last := orders[..|orders| - 1], orders[|orders| - 1];
            Legal(s, before, outcome) && Route(After(s, before, outcome)) != []
              && Rearranges(last, Route(After(s, before, outcome)))
  {
  }

  lemma AfterFew(s: State, orders: seq<seq<Agent>>, outcome: Agent -> Outcome)
    ensures orders == [] ==> After(s, orders, outcome) == s
    ensures |orders| == 1 ==> After(s, orders, outcome) == MergeAll(s, orders[0], outcome)
    ensures |orders| == 2 ==> After(s, orders, outcome) == MergeAll(MergeAll(s, orders[0], outcome), orders[1], outcome)
  {
    if |orders| == 1 {
      assert orders[..0] == [];
    } else if |orders| == 2 {
      assert orders[..1][..0] == [];
    }
  }

  lemma NonEmptyRearranged(order: seq<Agent>, agents: seq<Agent>)
    requires Rearranges(order, agents) && agents != []
    ensures order != [] && (|agents| == 1 ==> order == agents)
  {
    SameMembers(order, agents);
    assert order[0] in agents;
    if |agents| == 1 {
      assert order == [order[0]] && agents == [agents[0]];
    }
  }

  lemma {:induction false} RunShape(selected: seq<Agent>, orders: seq<seq<Agent>>, outcome: Agent -> Outcome)
    requires Legal(Initial(selected), orders, outcome)
    ensures Shape(selected, orders, outcome)
    decreases |orders|
  {
    hide LearningDue, MergeAll, Route, AnalysisChosen, Legal, After, Rearranges, Initial, Played, Distinct, Chosen;
    if orders != [] {
      var before, last := orders[..|orders| - 1], orders[|orders| - 1];
      LegalLast(Initial(selected), orders, outcome);
      RunShape(selected, before, outcome);
      AfterFew(Initial(selected), before, outcome);
      NonEmptyRearranged(last, Route(After(Initial(selected), before, outcome)));
      if before == [] {
        FirstRoute(selected);
      } else if |before| == 1 {
        AfterAnalysis(selected, before[0], outcome);
      } else {
        AfterLearning(selected, before[0], outcome);
        assert false;
      }
    }
  }

  lemma AtMostTwoSupersteps(selected: seq<Agent>, orders: seq<seq<Agent>>, outcome: Agent -> Outcome)
    requires Legal(Initial(selected), orders, outcome)
    ensures |orders| <= 2
    ensures |orders| == 2 ==> Route(After(Initial(selected), orders, outcome)) == []
  {
    RunShape(selected, orders, outcome);
    hide LearningDue, MergeAll, Route, AnalysisChosen, After, Legal;
    AfterFew(Initial(selected), orders, outcome);
    if |orders| == 2 {
      AfterLearning(selected, orders[0], outcome);
    }
  }

  /** What a finished run has played: every selected analysis agent, and learning when it was due. */
  lemma FinishedRun(selected: seq<Agent>, orders: seq<seq<Agent>>, outcome: Agent -> Outcome) returns (done: seq<Agent>)
    requires Finished(Initial(selected), orders, outcome)
    ensures |orders| <= 2 && Distinct(done)
            && Played(After(Initial(selected), orders, outcome), selected, done, outcome)
    ensures forall a | a != ContinuousLearning :: a in done <==> a in Chosen(selected)
    ensures ContinuousLearning in done <==> LearningDue(selected, outcome)
    ensures ContinuousLearning in done ==> done[|done| - 1] == ContinuousLearning
  {
    hide MergeAll, Route, AnalysisChosen, Played, Legal, LearningDue, After, Rearranges, Initial, Distinct, Chosen;
    RunShape(selected, orders, outcome);
    FirstRoute(selected);
    AfterFew(Initial(selected), orders, outcome);
    done := if orders == [] then AnalysisChosen(selected) else orders[0];
    EmptyRun(selected, outcome);
    AfterAnalysis(selected, done, outcome);
    if |orders| == 2 {
      AfterLearning(selected, done, outcome);
      done := done + [ContinuousLearning];
    }
  }

  lemma EmptyRun(selected: seq<Agent>, outcome: Agent -> Outcome)
    ensures Rearranges(AnalysisChosen(selected), AnalysisChosen(selected))
    ensures AnalysisChosen(selected) == [] ==>
            MergeAll(Initial(selected), AnalysisChosen(selected), outcome) == Initial(selected)
  {
  }

  // The main results.

  lemma {:induction false} FailuresExact(order: seq<Agent>, outcome: Agent -> Outcome)
    requires Distinct(order)
    ensures forall f ::
            f in FailuresOf(order, outcome) <==> f.agent in order && outcome(f.agent) == DomainFailure(f.error)
    ensures Distinct(FailuresOf(order, outcome))
  {
    if order != [] {
      var front, a := order[..|order| - 1], order[|order| - 1];
      assert order == front + [a];
      DistinctSnoc(front, a);
      FailuresExact(front, outcome);
      if outcome(a).DomainFailure? {
        DistinctSnoc(FailuresOf(front, outcome), Failure(a, outcome(a).error));
      }
    }
  }

  /** Each agent in `ran` ends with exactly one report or exactly one failure, whichever its outcome was. */
  ghost predicate Settled(t: State, outcome: Agent -> Outcome) {
    && Distinct(t.completed) && Distinct(t.failures)
    && (forall a :: a in t.reports <==> a in t.completed && outcome(a).Success?)
    && (forall a | a in t.reports :: t.reports[a] == outcome(a).report)
    && (forall f :: f in t.failures <==> f.agent in t.completed && outcome(f.agent) == DomainFailure(f.error))
  }

  /**
   * Every complete run, whatever succeeds or fails and however updates merge: it takes at most two supersteps,
   * dispatches each selected analysis agent exactly once and nothing unselected, settles each with one report or
   * one failure, and runs learning if and only if it was selected and some analysis reported, last of all.
   */
  lemma RunsAreExact(selected: seq<Agent>, orders: seq<seq<Agent>>, outcome: Agent -> Outcome)
    requires Finished(Initial(selected), orders, outcome)
    ensures |orders| <= 2
    ensures var t := After(Initial(selected), orders, outcome);
            && Settled(t, outcome)
            && (forall a | a != ContinuousLearning :: a in t.completed <==> a in Chosen(selected))
            && (ContinuousLearning in t.completed <==> LearningDue(selected, outcome))
            && (ContinuousLearning in t.completed ==> t.completed[|t.completed| - 1] == ContinuousLearning)
            && t.steps == StepsOf(t.completed, outcome)
            && |t.steps| == |t.completed|
            && (forall i | 0 <= i < |t.steps| ::
                  && t.steps[i].agent == t.completed[i]
                  && (t.steps[i].feedback <==> t.completed[i] == ContinuousLearning)
                  && (t.steps[i].ok <==> outcome(t.completed[i]).Success?))
  {
    hide After, Finished, LearningDue;
    var done := FinishedRun(selected, orders, outcome);
    FailuresExact(done, outcome);
    StepsInOrder(done, outcome);
  }

  lemma {:induction false} StepsInOrder(order: seq<Agent>, outcome: Agent -> Outcome)
    ensures |StepsOf(order, outcome)| == |order|
    ensures forall i | 0 <= i < |order| ::
              var step := StepsOf(order, outcome)[i];
              && step.agent == order[i] && (step.feedback <==> order[i] == ContinuousLearning)
              && (step.ok <==> outcome(order[i]).Success?)
  {
    if order != [] {
      StepsInOrder(order[..|order| - 1], outcome);
    }
  }

  // Collecting the votes.

  function VoteOf(a: Agent, view: View): V.Vote { V.Vote(Name(a), V.Agent, view.direction, view.confidence) }

  /** The vote a directional report stands for: under the agent's own name, with the report's direction and
   * confidence.
   */
  predicate Says(a: Agent, report: Report, v: V.Vote) {
    && report.view.Some?
    && v.voter == Name(a) && v.kind == V.Agent
    && v.direction == report.view.value.direction && v.confidence == report.view.value.confidence
  }

  function VotesFrom(agents: seq<Agent>, reports: map<Agent, Report>): seq<V.Vote> {
    if agents == [] then []
    else
      var front, a := agents[..|agents| - 1], agents[|agents| - 1];
      VotesFrom(front, reports) + if a in reports && reports[a].view.Some? then [VoteOf(a, reports[a].view.value)]
        else []
  }

  function Directional(reports: map<Agent, Report>): set<Agent> {
    set a | a in reports && reports[a].view.Some?
  }

  /** The voters are the analysis agents with a directional report, in canonical order, each with its report's vote. */
  ghost predicate OneVoteEach(reports: map<Agent, Report>, votes: seq<V.Vote>) {
    exists voters: seq<Agent> ::
      && Canonical(voters) && |voters| == |votes|
      && (forall a :: a in voters <==> a in ANALYSIS_AGENTS && a in Directional(reports))
      && forall i | 0 <= i < |votes| :: voters[i] in reports && Says(voters[i], reports[voters[i]], votes[i])
  }

  lemma {:induction false} FilterSnoc(agents: seq<Agent>, a: Agent, keep: set<Agent>)
    ensures Filter(agents + [a], keep) == Filter(agents, keep) + if a in keep then [a] else []
  {
    if agents == [] {
      assert [a][1..] == [];
      assert agents + [a] == [a];
    } else {
      assert (agents + [a])[1..] == agents[1..] + [a];
      assert (agents + [a])[0] == agents[0];
      FilterSnoc(agents[1..], a, keep);
      var first := if agents[0] in keep then [agents[0]] else [];
      assert Filter(agents, keep) == first + Filter(agents[1..], keep);
      assert Filter(agents + [a], keep) == first + Filter(agents[1..] + [a], keep);
    }
  }

  lemma {:induction false} VotesFollowFilter(agents: seq<Agent>, reports: map<Agent, Report>)
    ensures var voters, votes := Filter(agents, Directional(reports)), VotesFrom(agents, reports);
            && |voters| == |votes|
            && forall i | 0 <= i < |votes| :: voters[i] in reports && Says(voters[i], reports[voters[i]], votes[i])
  {
    if agents != [] {
      var front, a := agents[..|agents| - 1], agents[|agents| - 1];
      assert agents == front + [a];
      VotesFollowFilter(front, reports);
      FilterSnoc(front, a, Directional(reports));
    }
  }

  lemma VotesAreOneEach(reports: map<Agent, Report>)
    ensures OneVoteEach(reports, VotesFrom(ANALYSIS_AGENTS, reports))
  {
    var voters := Filter(ANALYSIS_AGENTS, Directional(reports));
    VotesFollowFilter(ANALYSIS_AGENTS, reports);
    AllAgentsCanonical();
    assert ANALYSIS_AGENTS == ALL_AGENTS[..6];
    FilterCanonical(ANALYSIS_AGENTS, Directional(reports));
  }

  /** One vote per analysis agent that produced a directional report, in canonical order. */
  method AgentVotes(s: State) returns (votes: seq<V.Vote>)
    ensures votes == VotesFrom(ANALYSIS_AGENTS, s.reports)
    ensures OneVoteEach(s.reports, votes)
  {
    VotesAreOneEach(s.reports);
    votes := [];
    for i := 0 to |ANALYSIS_AGENTS|
      invariant votes == VotesFrom(ANALYSIS_AGENTS[..i], s.reports)
    {
      var a := ANALYSIS_AGENTS[i];
      assert ANALYSIS_AGENTS[..i + 1][..i] == ANALYSIS_AGENTS[..i];
      if a in s.reports && s.reports[a].view.Some? {
        var view := s.reports[a].view.value;
        votes := votes + [V.Vote(Name(a), V.Agent, view.direction, view.confidence)];
      }
    }
    assert ANALYSIS_AGENTS[..|ANALYSIS_AGENTS|] == ANALYSIS_AGENTS;
  }

  /** The agents' votes, then the bot's when it has a fresh signal. */
  function Poll(s: State, bot: Option<V.Vote>): seq<V.Vote> {
    VotesFrom(ANALYSIS_AGENTS, s.reports) + if bot.Some? then [bot.value] else []
  }

  lemma NamesDiffer(a: Agent, b: Agent)
    requires a != b
    ensures Name(a) != Name(b)
  {
  }

  lemma {:induction false} VotesExact(agents: seq<Agent>, reports: map<Agent, Report>)
    requires Distinct(agents)
    ensures forall v :: v in VotesFrom(agents, reports) <==>
              exists a :: a in agents && a in reports && Says(a, reports[a], v)
    ensures forall i, j | 0 <= i < j < |VotesFrom(agents, reports)| ::
              VotesFrom(agents, reports)[i].voter != VotesFrom(agents, reports)[j].voter
  {
    if agents != [] {
      var front, a := agents[..|agents| - 1], agents[|agents| - 1];
      assert agents == front + [a];
      DistinctSnoc(front, a);
      VotesExact(front, reports);
      forall b | b in front
        ensures Name(b) != Name(a)
      {
        NamesDiffer(b, a);
      }
      assert forall v | v in VotesFrom(front, reports) :: v.voter != Name(a);
    }
  }

  predicate Voted(a: Agent, v: V.Vote, outcome: Agent -> Outcome) {
    outcome(a).Success? && Says(a, outcome(a).report, v)
  }

  /** A failed agent shrinks the pool: the voters are exactly the agents whose directional report succeeded, once
   * each.
   */
  lemma FailedAgentsDoNotVote(selected: seq<Agent>, orders: seq<seq<Agent>>, outcome: Agent -> Outcome)
    requires Finished(Initial(selected), orders, outcome)
    ensures var votes := Poll(After(Initial(selected), orders, outcome), None);
            && (forall v :: v in votes <==> exists a :: a in AnalysisChosen(selected) && Voted(a, v, outcome))
            && (forall i, j | 0 <= i < j < |votes| :: votes[i].voter != votes[j].voter)
  {
    hide After, Finished, AnalysisChosen, Chosen, LearningDue, StepsOf, VotesFrom, Says;
    var t := After(Initial(selected), orders, outcome);
    RunsAreExact(selected, orders, outcome);
    VotersReported(selected, t, outcome);
    VotesExact(ANALYSIS_AGENTS, t.reports);
  }

  /** The analysis agents with a report are the chosen ones that succeeded, each with its own report. */
  lemma VotersReported(selected: seq<Agent>, t: State, outcome: Agent -> Outcome)
    requires Settled(t, outcome) && forall a | a != ContinuousLearning :: a in t.completed <==> a in Chosen(selected)
    ensures forall a :: a in ANALYSIS_AGENTS && a in t.reports <==> a in AnalysisChosen(selected) && outcome(a).Success?
    ensures forall a | a in t.reports :: outcome(a).Success? && t.reports[a] == outcome(a).report
  {
    AnalysisChosenIs(selected);
    hide AnalysisChosen, Chosen, Distinct;
    EveryAgentListed(ContinuousLearning);
    forall a
      ensures a in ANALYSIS_AGENTS && a in t.reports <==> a in AnalysisChosen(selected) && outcome(a).Success?
    {
      EveryAgentListed(a);
    }
  }

  lemma {:induction false} StepsExact(order: seq<Agent>, outcome: Agent -> Outcome)
    requires Distinct(order)
    ensures forall st :: st in StepsOf(order, outcome) <==> st.agent in order && st == StepOf(st.agent, outcome)
    ensures Distinct(StepsOf(order, outcome))
  {
    if order != [] {
      var front, a := order[..|order| - 1], order[|order| - 1];
      assert order == front + [a];
      DistinctSnoc(front, a);
      StepsExact(front, outcome);
      DistinctSnoc(StepsOf(front, outcome), StepOf(a, outcome));
    }
  }

  lemma SettledAlike(t: State, t': State, outcome: Agent -> Outcome)
    requires Settled(t, outcome) && Settled(t', outcome)
    requires forall a :: a in t.completed <==> a in t'.completed
    requires t.steps == StepsOf(t.completed, outcome) && t'.steps == StepsOf(t'.completed, outcome)
    ensures t.reports == t'.reports && multiset(t.completed) == multiset(t'.completed)
    ensures multiset(t.failures) == multiset(t'.failures) && multiset(t.steps) == multiset(t'.steps)
  {
    hide Distinct, StepsOf;
    SameDistinctMembers(t.completed, t'.completed);
    SameDistinctMembers(t.failures, t'.failures);
    StepsExact(t.completed, outcome);
    StepsExact(t'.completed, outcome);
    SameDistinctMembers(t.steps, t'.steps);
    assert t.reports == t'.reports;
  }

  /**
   * Confluence: two complete runs over the same outcomes, merged differently, end with the same reports, votes and
   * verdict, and with rearrangements of the same completions, failures and steps.
   */
  lemma RunsAreConfluent(selected: seq<Agent>, orders: seq<seq<Agent>>, orders': seq<seq<Agent>>,
    outcome: Agent -> Outcome,
                         bot: Option<V.Vote>, policy: V.VotingPolicy)
    requires Finished(Initial(selected), orders, outcome) && Finished(Initial(selected), orders', outcome)
    ensures var t, t' := After(Initial(selected), orders, outcome), After(Initial(selected), orders', outcome);
            && t.reports == t'.reports && Poll(t, bot) == Poll(t', bot)
            && V.ActionOf(Poll(t, bot), policy) == V.ActionOf(Poll(t', bot), policy)
            && multiset(t.completed) == multiset(t'.completed)
            && multiset(t.failures) == multiset(t'.failures)
            && multiset(t.steps) == multiset(t'.steps)
  {
    var t, t' := After(Initial(selected), orders, outcome), After(Initial(selected), orders', outcome);
    hide After, Finished, LearningDue, VotesFrom, V.ActionOf, StepsOf, Settled, Chosen;
    RunsAreExact(selected, orders, outcome);
    RunsAreExact(selected, orders', outcome);
    forall a
      ensures a in t.completed <==> a in t'.completed
    {
      assert a == ContinuousLearning || a != ContinuousLearning;
    }
    SettledAlike(t, t', outcome);
  }
}
