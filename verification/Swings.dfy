/** Fractal swing points: a bar whose high, or else low, strictly dominates its neighbours. */
module Swings {
  import opened Market
  import opened Signals

  predicate Peak(bars: seq<Bar>, i: int, window: nat)
    requires window <= i < |bars| - window
  {
    forall j | i - window <= j <= i + window && j != i :: bars[i].high > bars[j].high
  }

  predicate Trough(bars: seq<Bar>, i: int, window: nat)
    requires window <= i < |bars| - window
  {
    forall j | i - window <= j <= i + window && j != i :: bars[i].low < bars[j].low
  }

  function SwingAt(bars: seq<Bar>, i: int, window: nat): seq<SwingPoint>
    requires window <= i < |bars| - window
  {
    if Peak(bars, i, window) then [SwingPoint(High, i, bars[i].timestamp, bars[i].high)]
    else if Trough(bars, i, window) then [SwingPoint(Low, i, bars[i].timestamp, bars[i].low)]
    else []
  }

  function SwingsUpTo(bars: seq<Bar>, end: int, window: nat): seq<SwingPoint>
    requires end <= |bars| - window
    decreases end
  {
    if end <= window then [] else SwingsUpTo(bars, end - 1, window) + SwingAt(bars, end - 1, window)
  }

  function FractalSwings(bars: seq<Bar>, window: nat): seq<SwingPoint> { SwingsUpTo(bars, |bars| - window, window) }

  method FindSwings(bars: seq<Bar>, window: nat) returns (swings: seq<SwingPoint>)
    ensures swings == FractalSwings(bars, window)
  {
    swings := [];
    if |bars| - window <= window {
      return;
    }
    for index := window to |bars| - window
      invariant swings == SwingsUpTo(bars, index, window)
    {
      var found := Classify(bars, index, window);
      swings := swings + found;
    }
  }

  method Classify(bars: seq<Bar>, index: int, window: nat) returns (found: seq<SwingPoint>)
    requires window <= index < |bars| - window
    ensures found == SwingAt(bars, index, window)
  {
    var bar := bars[index];
    var neighbours := bars[index - window..index] + bars[index + 1..index + window + 1];
    NeighboursAre(bars, index, window, neighbours);
    if forall other | other in neighbours :: bar.high > other.high {
      return [SwingPoint(High, index, bar.timestamp, bar.high)];
    }
    if forall other | other in neighbours :: bar.low < other.low {
      return [SwingPoint(Low, index, bar.timestamp, bar.low)];
    }
    return [];
  }

  lemma NeighboursAre(bars: seq<Bar>, i: int, window: nat, neighbours: seq<Bar>)
    requires window <= i < |bars| - window
    requires neighbours == bars[i - window..i] + bars[i + 1..i + window + 1]
    ensures (forall other | other in neighbours :: bars[i].high > other.high) <==> Peak(bars, i, window)
    ensures (forall other | other in neighbours :: bars[i].low < other.low) <==> Trough(bars, i, window)
  {
    forall j | i - window <= j <= i + window && j != i
      ensures bars[j] in neighbours
    {
      var at := if j < i then j - (i - window) else j - (i - window) - 1;
      assert neighbours[at] == bars[j];
    }
    forall other | other in neighbours
      ensures exists j :: i - window <= j <= i + window && j != i && bars[j] == other
    {
      var at :| 0 <= at < |neighbours| && neighbours[at] == other;
      var j := if at < window then i - window + at else i + 1 + at - window;
      assert bars[j] == other;
    }
  }

  // What the list holds.

  ghost predicate IsSwing(bars: seq<Bar>, window: nat, s: SwingPoint) {
    && window <= s.index < |bars| - window
    && s.timestamp == bars[s.index].timestamp
    && (s.kind == High <==> Peak(bars, s.index, window))
    && (s.kind == Low ==> Trough(bars, s.index, window))
    && s.price == (if s.kind == High then bars[s.index].high else bars[s.index].low)
  }

  predicate IndexOrdered(swings: seq<SwingPoint>) {
    forall a, b | 0 <= a < b < |swings| :: swings[a].index < swings[b].index
  }

  lemma SwingAtExact(bars: seq<Bar>, i: int, window: nat, s: SwingPoint)
    requires window <= i < |bars| - window
    ensures s in SwingAt(bars, i, window) <==> IsSwing(bars, window, s) && s.index == i
  {
  }

  lemma OrderedAppend(front: seq<SwingPoint>, last: seq<SwingPoint>)
    requires IndexOrdered(front) && |last| <= 1
    requires forall s, t | s in front && t in last :: s.index < t.index
    ensures IndexOrdered(front + last)
  {
    forall a, b | 0 <= a < b < |front + last|
      ensures (front + last)[a].index < (front + last)[b].index
    {
      if b >= |front| {
        assert (front + last)[a] == front[a] && (front + last)[b] == last[0];
      }
    }
  }

  /** Main result: exactly the dominating bars are reported, once each, in time order; a bar that is both counts as
   * a high.
   */
  lemma {:induction false} SwingsExact(bars: seq<Bar>, end: int, window: nat)
    requires end <= |bars| - window
    ensures IndexOrdered(SwingsUpTo(bars, end, window))
    ensures forall s :: s in SwingsUpTo(bars, end, window) <==> IsSwing(bars, window, s) && s.index < end
    decreases end
  {
    if end > window {
      hide IsSwing;
      SwingsExact(bars, end - 1, window);
      var front, last := SwingsUpTo(bars, end - 1, window), SwingAt(bars, end - 1, window);
      forall s
        ensures s in front + last <==> IsSwing(bars, window, s) && s.index < end
      {
        SwingAtExact(bars, end - 1, window, s);
      }
      OrderedAppend(front, last);
    }
  }

  /** Two swings of one kind cannot dominate each other, so they are more than a window apart. */
  lemma SameKindApart(bars: seq<Bar>, window: nat, s: SwingPoint, t: SwingPoint)
    requires IsSwing(bars, window, s) && IsSwing(bars, window, t)
    requires s.kind == t.kind && s.index < t.index
    ensures t.index - s.index > window
  {
    var earlier, later := bars[s.index], bars[t.index];
    if t.index - s.index <= window {
      assert false;
    }
  }
}
