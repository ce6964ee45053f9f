/** Counting the votes: a confidence-weighted score, two gates and a threshold. */
module Voting {
  import opened Numeric
  import opened Signals
  import opened Sorting

  datatype VoterKind = Agent | Bot

  datatype Vote = Vote(voter: string, kind: VoterKind, direction: Direction, confidence: real)

  predicate ValidVote(v: Vote) { v.voter != "" && 0.0 <= v.confidence <= 1.0 }

  predicate ValidVotes(votes: seq<Vote>) { forall v | v in votes :: ValidVote(v) }

  datatype VotingPolicy = VotingPolicy(threshold: real, minVoters: int, requireBotSignal: bool)

  predicate ValidPolicy(p: VotingPolicy) { 0.0 <= p.threshold <= 1.0 && p.minVoters >= 1 }

  datatype Action = Sell | Hold | Buy

  datatype Counts = Counts(bullish: nat, bearish: nat, neutral: nat)

  datatype Reason = NoVotes | NoQuorum(have: nat, need: int) | NoBotSignal | Tallied(counts: Counts)

  datatype Decision = Decision(action: Action, score: real, votes: seq<Vote>, policy: VotingPolicy, quorumMet: bool,
    reason: Reason)

  function DirectionWeight(d: Direction): real {
    match d
    case Bullish => 1.0
    case Bearish => -1.0
    case Neutral => 0.0
  }

  function Weight(v: Vote): real { DirectionWeight(v.direction) * v.confidence }

  function TotalConfidence(votes: seq<Vote>): real {
    if votes == [] then 0.0 else votes[0].confidence + TotalConfidence(votes[1..])
  }

  function NetWeight(votes: seq<Vote>): real {
    if votes == [] then 0.0 else Weight(votes[0]) + NetWeight(votes[1..])
  }

  /** Blank, not bearish, when nobody committed any confidence. */
  function Score(votes: seq<Vote>): real {
    if TotalConfidence(votes) <= 0.0 then 0.0 else NetWeight(votes) / TotalConfidence(votes)
  }

  function HeadCount(votes: seq<Vote>, d: Direction): nat {
    if votes == [] then 0 else (if votes[0].direction == d then 1 else 0) + HeadCount(votes[1..], d)
  }

  function CountsOf(votes: seq<Vote>): Counts {
    Counts(HeadCount(votes, Bullish), HeadCount(votes, Bearish), HeadCount(votes, Neutral))
  }

  predicate QuorumMet(votes: seq<Vote>, policy: VotingPolicy) { |votes| >= policy.minVoters }

  predicate HasBot(votes: seq<Vote>) { exists v | v in votes :: v.kind.Bot? }

  /** Both gates are open: someone voted, enough did, and a required bot took part. */
  predicate GatesOpen(votes: seq<Vote>, policy: VotingPolicy) {
    votes != [] && QuorumMet(votes, policy) && (policy.requireBotSignal ==> HasBot(votes))
  }

  function Threshold(score: real, threshold: real): Action {
    if score >= threshold then Buy else if score <= -threshold then Sell else Hold
  }

  function ActionOf(votes: seq<Vote>, policy: VotingPolicy): Action {
    if GatesOpen(votes, policy) then Threshold(Score(votes), policy.threshold) else Hold
  }

  lemma {:induction false} HeadCountSnoc(votes: seq<Vote>, v: Vote, d: Direction)
    ensures HeadCount(votes + [v], d) == HeadCount(votes, d) + if v.direction == d then 1 else 0
  {
    if votes == [] {
      assert votes + [v] == [v];
    } else {
      assert (votes + [v])[1..] == votes[1..] + [v];
      HeadCountSnoc(votes[1..], v, d);
    }
  }

  method CountVotes(votes: seq<Vote>) returns (counts: Counts)
    ensures counts == CountsOf(votes)
    ensures counts.bullish + counts.bearish + counts.neutral == |votes|
  {
    counts := Counts(0, 0, 0);
    for i := 0 to |votes|
      invariant counts == CountsOf(votes[..i])
      invariant counts.bullish + counts.bearish + counts.neutral == i
    {
      assert votes[..i + 1] == votes[..i] + [votes[i]];
      HeadCountSnoc(votes[..i], votes[i], Bullish);
      HeadCountSnoc(votes[..i], votes[i], Bearish);
      HeadCountSnoc(votes[..i], votes[i], Neutral);
      match votes[i].direction
      case Bullish => counts := counts.(bullish := counts.bullish + 1);
      case Bearish => counts := counts.(bearish := counts.bearish + 1);
      case Neutral => counts := counts.(neutral := counts.neutral + 1);
    }
    assert votes[..|votes|] == votes;
  }

  method Verdict(votes: seq<Vote>, score: real, policy: VotingPolicy, quorumMet: bool, hasBot: bool)
    returns (action: Action, reason: Reason)
    requires score == Score(votes) && quorumMet == QuorumMet(votes, policy) && hasBot == HasBot(votes)
    ensures action == ActionOf(votes, policy)
    ensures reason.Tallied? <==> GatesOpen(votes, policy)
    ensures reason.Tallied? ==> reason.counts == CountsOf(votes)
    ensures reason.NoVotes? <==> votes == []
    ensures reason.NoQuorum? ==> reason.have == |votes| < policy.minVoters == reason.need
    ensures reason.NoBotSignal? ==> policy.requireBotSignal && !HasBot(votes)
  {
    if votes == [] {
      return Hold, NoVotes;
    }
    if !quorumMet {
      return Hold, NoQuorum(|votes|, policy.minVoters);
    }
    if policy.requireBotSignal && !hasBot {
      return Hold, NoBotSignal;
    }
    var counts := CountVotes(votes);
    if score >= policy.threshold {
      return Buy, Tallied(counts);
    }
    if score <= -policy.threshold {
      return Sell, Tallied(counts);
    }
    return Hold, Tallied(counts);
  }

  /** The confidence put behind one direction, all its voters together. */
  function Backing(votes: seq<Vote>, d: Direction): real {
    if votes == [] then 0.0
    else
      var last := votes[|votes| - 1];
      Backing(votes[..|votes| - 1], d) + if last.direction == d then last.confidence else 0.0
  }

  lemma {:induction false} BackingCons(votes: seq<Vote>, d: Direction)
    requires votes != []
    ensures Backing(votes, d) ==
            (if votes[0].direction == d then votes[0].confidence else 0.0) + Backing(votes[1..], d)
  {
    var n := |votes|;
    if n > 1 {
      BackingCons(votes[..n - 1], d);
      assert votes[..n - 1][1..] == votes[1..][..n - 2];
    }
  }

  lemma {:induction false} TotalsAreBacking(votes: seq<Vote>)
    ensures TotalConfidence(votes) == Backing(votes, Bullish) + Backing(votes, Bearish) + Backing(votes, Neutral)
    ensures NetWeight(votes) == Backing(votes, Bullish) - Backing(votes, Bearish)
  {
    if votes != [] {
      TotalsAreBacking(votes[1..]);
      BackingCons(votes, Bullish);
      BackingCons(votes, Bearish);
      BackingCons(votes, Neutral);
    }
  }

  /** The score is the bullish confidence less the bearish, as a share of all confidence, and zero when there is
   * none.
   */
  predicate SharesOut(votes: seq<Vote>, score: real) {
    var total := Backing(votes, Bullish) + Backing(votes, Bearish) + Backing(votes, Neutral);
    if total > 0.0 then score * total == Backing(votes, Bullish) - Backing(votes, Bearish) else score == 0.0
  }

  lemma ScoreSharesOut(votes: seq<Vote>, score: real)
    ensures SharesOut(votes, score) <==> score == Score(votes)
  {
    TotalsAreBacking(votes);
    hide Backing, NetWeight, TotalConfidence;
    var total := TotalConfidence(votes);
    if total > 0.0 {
      assert NetWeight(votes) / total * total == NetWeight(votes);
      if score * total == NetWeight(votes) {
        assert score == score * total / total;
      }
    }
  }

  /** Votes are acted on at the exact score; only the published score is rounded, and it stays publishable. */
  method Tally(votes: seq<Vote>, policy: VotingPolicy) returns (d: Decision)
    requires ValidVotes(votes) && ValidPolicy(policy)
    ensures d.votes == votes && d.policy == policy && d.quorumMet == QuorumMet(votes, policy)
    ensures d.action == ActionOf(votes, policy) && d.score == RoundTo(Score(votes), 10_000.0)
    ensures -1.0 <= d.score <= 1.0 && Quantised(Score(votes), d.score, 10_000.0) && SharesOut(votes, Score(votes))
    ensures d.reason.Tallied? <==> GatesOpen(votes, policy)
    ensures d.action == Buy <==> GatesOpen(votes, policy) && Score(votes) >= policy.threshold
    ensures d.action == Sell <==>
            GatesOpen(votes, policy) && Score(votes) < policy.threshold && Score(votes) <= -policy.threshold
  {
    var score := Score(votes);
    var quorumMet := |votes| >= policy.minVoters;
    var hasBot := exists v | v in votes :: v.kind == Bot;
    var action, reason := Verdict(votes, score, policy, quorumMet, hasBot);
    ScoreInUnit(votes);
    RoundedInUnit(score);
    RoundToQuantises(score, 10_000.0);
    ScoreSharesOut(votes, score);
    d := Decision(action, RoundTo(score, 10_000.0), votes, policy, quorumMet, reason);
  }

  lemma RoundedInUnit(x: real)
    requires -1.0 <= x <= 1.0
    ensures -1.0 <= RoundTo(x, 10_000.0) <= 1.0
  {
    var n := RoundHalfEven(x * 10_000.0);
    assert -10_000 <= n <= 10_000;
  }

  lemma {:induction false} NetWeightBounded(votes: seq<Vote>)
    requires ValidVotes(votes)
    ensures -TotalConfidence(votes) <= NetWeight(votes) <= TotalConfidence(votes)
  {
    if votes != [] {
      assert ValidVote(votes[0]);
      NetWeightBounded(votes[1..]);
    }
  }

  lemma ScoreInUnit(votes: seq<Vote>)
    requires ValidVotes(votes)
    ensures -1.0 <= Score(votes) <= 1.0
  {
    NetWeightBounded(votes);
    var total := TotalConfidence(votes);
    if total > 0.0 {
      QuotientAtMost(NetWeight(votes), total, 1.0);
      QuotientAtMost(NetWeight(votes), total, -1.0);
    }
  }

  // Order of arrival.

  ghost predicate SameTotals(v: seq<Vote>, w: seq<Vote>) {
    TotalConfidence(v) == TotalConfidence(w) && NetWeight(v) == NetWeight(w) && CountsOf(v) == CountsOf(w)
  }

  lemma TotalsCons(x: Vote, v: seq<Vote>, d: Direction)
    ensures TotalConfidence([x] + v) == x.confidence + TotalConfidence(v)
            && NetWeight([x] + v) == Weight(x) + NetWeight(v)
    ensures HeadCount([x] + v, d) == (if x.direction == d then 1 else 0) + HeadCount(v, d)
  {
    assert ([x] + v)[1..] == v;
  }

  lemma SameTotalsCons(x: Vote, v: seq<Vote>, w: seq<Vote>)
    requires SameTotals(v, w)
    ensures SameTotals([x] + v, [x] + w)
  {
    assert ([x] + v)[1..] == v && ([x] + w)[1..] == w;
  }

  lemma SameTotalsSwap(x: Vote, y: Vote, v: seq<Vote>)
    ensures SameTotals([x] + ([y] + v), [y] + ([x] + v))
  {
    forall d
      ensures HeadCount([x] + ([y] + v), d) == HeadCount([y] + ([x] + v), d)
      ensures TotalConfidence([x] + ([y] + v)) == TotalConfidence([y] + ([x] + v))
              && NetWeight([x] + ([y] + v)) == NetWeight([y] + ([x] + v))
    {
      TotalsCons(x, [y] + v, d);
      TotalsCons(y, v, d);
      TotalsCons(y, [x] + v, d);
      TotalsCons(x, v, d);
    }
  }

  lemma {:induction false} TotalsMove(a: seq<Vote>, x: Vote, b: seq<Vote>)
    ensures SameTotals([x] + (a + b), a + ([x] + b))
  {
    if a == [] {
      assert a + b == b && a + ([x] + b) == [x] + b;
    } else {
      var y, rest := a[0], a[1..];
      TotalsMove(rest, x, b);
      SameTotalsCons(y, [x] + (rest + b), rest + ([x] + b));
      SameTotalsSwap(x, y, rest + b);
      assert a + b == [y] + (rest + b) && a + ([x] + b) == [y] + (rest + ([x] + b));
    }
  }

  lemma {:induction false} TotalsPermute(v: seq<Vote>, w: seq<Vote>)
    requires multiset(v) == multiset(w)
    ensures SameTotals(v, w)
    decreases |v|
  {
    assert |v| == |multiset(v)| == |multiset(w)| == |w|;
    if v != [] {
      hide SameTotals;
      assert v[0] in multiset(w);
      var i :| 0 <= i < |w| && w[i] == v[0];
      RemoveOne(v, w, i);
      TotalsPermute(v[1..], w[..i] + w[i + 1..]);
      SameTotalsCons(v[0], v[1..], w[..i] + w[i + 1..]);
      TotalsMove(w[..i], v[0], w[i + 1..]);
      SameTotalsTrans(v, [v[0]] + (w[..i] + w[i + 1..]), w);
    }
  }

  lemma SameTotalsTrans(u: seq<Vote>, v: seq<Vote>, w: seq<Vote>)
    requires SameTotals(u, v) && SameTotals(v, w)
    ensures SameTotals(u, w)
  {
  }

  /** The same votes in any order give the same score, the same counts and the same action. */
  lemma VerdictIgnoresOrder(v: seq<Vote>, w: seq<Vote>, policy: VotingPolicy)
    requires multiset(v) == multiset(w)
    ensures Score(v) == Score(w) && CountsOf(v) == CountsOf(w)
    ensures ActionOf(v, policy) == ActionOf(w, policy)
  {
    TotalsPermute(v, w);
    assert |v| == |multiset(v)| == |multiset(w)| == |w|;
    forall x
      ensures x in v <==> x in w
    {
      assert x in v <==> x in multiset(v);
      assert x in w <==> x in multiset(w);
    }
  }

  // Changing minds.

  function Rank(a: Action): int {
    match a
    case Sell => 0
    case Hold => 1
    case Buy => 2
  }

  /** `w` is `v` with some voters' directions moved up, everything else as it was. */
  ghost predicate Upgraded(v: seq<Vote>, w: seq<Vote>) {
    |v| == |w| && forall i | 0 <= i < |v| ::
      && w[i] == v[i].(direction := w[i].direction)
      && DirectionWeight(v[i].direction) <= DirectionWeight(w[i].direction)
  }

  lemma {:induction false} UpgradeRaisesWeight(v: seq<Vote>, w: seq<Vote>)
    requires ValidVotes(v) && Upgraded(v, w)
    ensures NetWeight(v) <= NetWeight(w) && TotalConfidence(v) == TotalConfidence(w)
  {
    if v != [] {
      assert ValidVote(v[0]) && v[0].confidence == w[0].confidence;
      assert Weight(v[0]) <= Weight(w[0]) by {
        Widen(v[0].confidence, DirectionWeight(v[0].direction), DirectionWeight(w[0].direction));
      }
      UpgradeRaisesWeight(v[1..], w[1..]);
    }
  }

  lemma UpgradeRaisesScore(v: seq<Vote>, w: seq<Vote>)
    requires ValidVotes(v) && Upgraded(v, w)
    ensures Score(v) <= Score(w)
  {
    UpgradeRaisesWeight(v, w);
    ScoreTimesTotal(w);
    if TotalConfidence(v) > 0.0 {
      QuotientAtMost(NetWeight(v), TotalConfidence(v), Score(w));
    }
  }

  /** Upgrading any voters' directions at fixed confidence never moves the action down. */
  lemma UpgradeNeverLowers(v: seq<Vote>, w: seq<Vote>, policy: VotingPolicy)
    requires ValidVotes(v) && Upgraded(v, w)
    ensures Score(v) <= Score(w)
    ensures Rank(ActionOf(v, policy)) <= Rank(ActionOf(w, policy))
  {
    UpgradeRaisesScore(v, w);
    hide Score;
    assert forall i | 0 <= i < |v| :: v[i].kind == w[i].kind;
    if HasBot(v) {
      var i :| 0 <= i < |v| && v[i].kind.Bot?;
      assert w[i] in w && w[i].kind.Bot?;
    }
    if HasBot(w) {
      var i :| 0 <= i < |w| && w[i].kind.Bot?;
      assert v[i] in v && v[i].kind.Bot?;
    }
  }

  // Turning every vote around.

  function Opposite(d: Direction): Direction {
    match d
    case Bullish => Bearish
    case Bearish => Bullish
    case Neutral => Neutral
  }

  function Reversed(votes: seq<Vote>): seq<Vote> {
    if votes == [] then [] else [votes[0].(direction := Opposite(votes[0].direction))] + Reversed(votes[1..])
  }

  function Swapped(a: Action): Action {
    match a
    case Buy => Sell
    case Sell => Buy
    case Hold => Hold
  }

  lemma {:induction false} ReversalNegates(votes: seq<Vote>)
    ensures |Reversed(votes)| == |votes|
    ensures TotalConfidence(Reversed(votes)) == TotalConfidence(votes)
            && NetWeight(Reversed(votes)) == -NetWeight(votes)
    ensures HasBot(Reversed(votes)) == HasBot(votes)
  {
    if votes != [] {
      var first := votes[0].(direction := Opposite(votes[0].direction));
      var rest := Reversed(votes[1..]);
      ReversalNegates(votes[1..]);
      HasBotCons(votes[0], votes[1..]);
      HasBotCons(first, rest);
      assert votes == [votes[0]] + votes[1..];
      assert Weight(first) == -Weight(votes[0]);
      assert ([first] + rest)[1..] == rest;
    }
  }

  lemma HasBotCons(v: Vote, rest: seq<Vote>)
    ensures HasBot([v] + rest) <==> v.kind.Bot? || HasBot(rest)
  {
    assert v in [v] + rest;
    if HasBot(rest) {
      var x :| x in rest && x.kind.Bot?;
      assert x in [v] + rest;
    }
  }

  /**
   * Turning every vote around swaps buy and sell. It fails in exactly one family: a zero threshold with
   * the gates open and a dead-even score, where both the votes and their reversal say buy.
   */
  lemma ReversalSwaps(votes: seq<Vote>, policy: VotingPolicy)
    requires ValidPolicy(policy)
    ensures Score(Reversed(votes)) == -Score(votes)
    ensures ActionOf(Reversed(votes), policy) == Swapped(ActionOf(votes, policy))
            <==> !(policy.threshold == 0.0 && Score(votes) == 0.0 && GatesOpen(votes, policy))
  {
    hide Score, HasBot, Reversed;
    ReversalNegates(votes);
    ReversedScore(votes);
  }

  lemma ReversedScore(votes: seq<Vote>)
    ensures Score(Reversed(votes)) == -Score(votes)
  {
    ReversalNegates(votes);
    var total, net := TotalConfidence(votes), NetWeight(votes);
    if total > 0.0 {
      NegatedQuotient(net, total);
    }
  }

  lemma NegatedQuotient(x: real, y: real)
    requires y > 0.0
    ensures (-x) / y == -(x / y)
  {
  }

  /** One shrug against a zero threshold is a buy, and so is its reversal. */
  lemma EvenScoreBuys()
    ensures var votes := [Vote("mt5-ea-v3", Bot, Neutral, 0.5)];
            var policy := VotingPolicy(0.0, 1, false);
            ActionOf(votes, policy) == Buy == ActionOf(Reversed(votes), policy)
  {
    var v := Vote("mt5-ea-v3", Bot, Neutral, 0.5);
    assert [v][0] == v && [v][1..] == [] && Weight(v) == 0.0;
    assert TotalConfidence([]) == 0.0 && NetWeight([]) == 0.0;
    assert TotalConfidence([v]) == 0.5 && NetWeight([v]) == 0.0;
    assert Score([v]) == 0.0;
    assert Reversed([v]) == [v];
  }

  // Shrugs, unanimity and backing.

  /** A further neutral vote can only dilute. */
  lemma NeutralDilutes(votes: seq<Vote>, shrug: Vote)
    requires ValidVotes(votes) && ValidVote(shrug) && shrug.direction == Neutral
    ensures Abs(Score(votes + [shrug])) <= Abs(Score(votes))
    ensures TotalConfidence(votes) > 0.0 && Score(votes) != 0.0 && shrug.confidence > 0.0
            ==> Abs(Score(votes + [shrug])) < Abs(Score(votes))
  {
    hide Score, Abs, NetWeight, TotalConfidence;
    NeutralAddsNoWeight(votes, shrug);
    NetWeightBounded(votes);
    ScoreTimesTotal(votes);
    ScoreTimesTotal(votes + [shrug]);
    if TotalConfidence(votes) > 0.0 {
      WiderShrinks(Score(votes), TotalConfidence(votes), Score(votes + [shrug]), TotalConfidence(votes)
        + shrug.confidence);
    }
  }

  lemma ScoreTimesTotal(votes: seq<Vote>)
    ensures TotalConfidence(votes) > 0.0 ==> Score(votes) * TotalConfidence(votes) == NetWeight(votes)
    ensures NetWeight(votes) == 0.0 ==> Score(votes) == 0.0
  {
  }

  lemma {:induction false} NeutralAddsNoWeight(votes: seq<Vote>, shrug: Vote)
    requires shrug.direction == Neutral
    ensures NetWeight(votes + [shrug]) == NetWeight(votes)
    ensures TotalConfidence(votes + [shrug]) == TotalConfidence(votes) + shrug.confidence
  {
    if votes == [] {
      assert votes + [shrug] == [shrug];
    } else {
      assert (votes + [shrug])[1..] == votes[1..] + [shrug];
      NeutralAddsNoWeight(votes[1..], shrug);
    }
  }

  lemma AbsTimes(x: real, y: real)
    requires y > 0.0
    ensures Abs(x) * y == Abs(x * y)
  {
  }

  lemma WiderShrinks(s: real, total: real, t: real, more: real)
    requires 0.0 < total <= more && s * total == t * more
    ensures Abs(t) <= Abs(s)
    ensures s != 0.0 && total < more ==> Abs(t) < Abs(s)
  {
    AbsTimes(s, total);
    AbsTimes(t, more);
    Widen(Abs(s), total, more);
    CancelFactor(Abs(t), Abs(s), more);
    CancelFactor(Abs(s), Abs(t), more);
  }

  lemma Widen(a: real, total: real, more: real)
    requires a >= 0.0 && total <= more
    ensures a * total <= a * more
    ensures a > 0.0 && total < more ==> a * total < a * more
  {
    assert a * (more - total) >= 0.0;
    assert a > 0.0 && total < more ==> a * (more - total) > 0.0;
  }

  lemma {:induction false} FullWeightMeansUnanimous(votes: seq<Vote>)
    requires ValidVotes(votes)
    ensures NetWeight(votes) == TotalConfidence(votes) <==>
            forall v | v in votes :: v.confidence > 0.0 ==> v.direction == Bullish
  {
    if votes != [] {
      var first, rest := votes[0], votes[1..];
      assert ValidVote(first) && votes == [first] + rest;
      FullWeightMeansUnanimous(rest);
      NetWeightBounded(rest);
    }
  }

  lemma QuotientIsOne(x: real, y: real)
    requires y > 0.0
    ensures x / y == 1.0 <==> x == y
  {
    QuotientAtMost(x, y, 1.0);
  }

  /**
   * A score of +1 says that every voter with any confidence at all is bullish, and nothing about how
   * certain they are.
   */
  lemma FullScoreMeansUnanimous(votes: seq<Vote>)
    requires ValidVotes(votes) && TotalConfidence(votes) > 0.0
    ensures Score(votes) == 1.0 <==> forall v | v in votes :: v.confidence > 0.0 ==> v.direction == Bullish
  {
    FullWeightMeansUnanimous(votes);
    hide NetWeight, TotalConfidence;
    QuotientIsOne(NetWeight(votes), TotalConfidence(votes));
  }

  /** So a single bull scores +1 however hesitant, as long as not wholly unsure. */
  lemma HesitantBullScoresOne(bull: Vote)
    requires ValidVote(bull) && bull.direction == Bullish && bull.confidence > 0.0
    ensures Score([bull]) == 1.0
  {
    assert TotalConfidence([bull]) == bull.confidence;
    FullScoreMeansUnanimous([bull]);
  }

  function Wanted(a: Action): Direction { if a == Buy then Bullish else Bearish }

  /** Share of non-neutral voters siding with the outcome. */
  function Agreement(d: Decision): real {
    var directional := HeadCount(d.votes, Bullish) + HeadCount(d.votes, Bearish);
    if directional == 0 || d.action == Hold then 0.0
    else HeadCount(d.votes, Wanted(d.action)) as real / directional as real
  }

  lemma {:induction false} WeightNeedsBacker(votes: seq<Vote>)
    requires ValidVotes(votes)
    ensures NetWeight(votes) > 0.0 ==> HeadCount(votes, Bullish) > 0
    ensures NetWeight(votes) < 0.0 ==> HeadCount(votes, Bearish) > 0
  {
    if votes != [] {
      assert ValidVote(votes[0]);
      WeightNeedsBacker(votes[1..]);
    }
  }

  lemma ShareInUnit(part: nat, whole: nat)
    requires part <= whole && whole > 0
    ensures 0.0 <= part as real / whole as real <= 1.0
    ensures part > 0 ==> part as real / whole as real > 0.0
  {
    QuotientAtMost(part as real, whole as real, 1.0);
    QuotientAtMost(part as real, whole as real, 0.0);
    QuotientAtMost(-(part as real), whole as real, 0.0);
    NegatedQuotient(part as real, whole as real);
  }

  /** No buy or sell at a score other than zero is without a voter who wanted it. */
  lemma ActionHasBacker(d: Decision)
    requires ValidVotes(d.votes) && ValidPolicy(d.policy) && d.action == ActionOf(d.votes, d.policy)
    ensures 0.0 <= Agreement(d) <= 1.0
    ensures d.action != Hold && Score(d.votes) != 0.0 ==> Agreement(d) > 0.0
  {
    WeightNeedsBacker(d.votes);
    ScoreSign(d.votes);
    hide Score, HeadCount, NetWeight, HasBot;
    var backers, directional :=
      HeadCount(d.votes, Wanted(d.action)), HeadCount(d.votes, Bullish) + HeadCount(d.votes, Bearish);
    if directional > 0 {
      ShareInUnit(backers, directional);
    }
  }

  lemma ScoreSign(votes: seq<Vote>)
    ensures Score(votes) > 0.0 ==> NetWeight(votes) > 0.0
    ensures Score(votes) < 0.0 ==> NetWeight(votes) < 0.0
  {
    var total := TotalConfidence(votes);
    if total > 0.0 {
      QuotientAtMost(NetWeight(votes), total, 0.0);
    }
  }
}
