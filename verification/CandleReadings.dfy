/** What a resampled series and a fetched window say about the bars they came from. */
module CandleReadings {
  import opened Numeric
  import opened Market
  import opened Resampling
  import opened FetchWindow

  predicate InSpan(b: Bar, start: int, width: int) { start <= b.timestamp < start + width }

  function VolumeIn(bars: seq<Bar>, start: int, width: int): real {
    if bars == [] then 0.0
    else (if InSpan(bars[0], start, width) then bars[0].volume else 0.0) + VolumeIn(bars[1..], start, width)
  }

  ghost predicate OpensWith(bars: seq<Bar>, start: int, width: int, open: real) {
    exists first | first in bars && InSpan(first, start, width) ::
      && first.open == open
      && forall b | b in bars && InSpan(b, start, width) :: first.timestamp <= b.timestamp
  }

  ghost predicate ClosesWith(bars: seq<Bar>, start: int, width: int, close: real) {
    exists last | last in bars && InSpan(last, start, width) ::
      && last.close == close
      && forall b | b in bars && InSpan(b, start, width) :: b.timestamp <= last.timestamp
  }

  ghost predicate Spans(bars: seq<Bar>, start: int, width: int, low: real, high: real) {
    && (forall b | b in bars && InSpan(b, start, width) :: low <= b.low && b.high <= high)
    && (exists b | b in bars && InSpan(b, start, width) :: b.high == high)
    && (exists b | b in bars && InSpan(b, start, width) :: b.low == low)
  }

  /** A candle on a multiple of the width: the first open, highest high, lowest low, last close and whole volume of
   * its span.
   */
  ghost predicate CandleReads(bars: seq<Bar>, width: int, c: Bar)
    requires width > 0
  {
    && c.timestamp % width == 0
    && OpensWith(bars, c.timestamp, width, c.open) && ClosesWith(bars, c.timestamp, width, c.close)
    && Spans(bars, c.timestamp, width, c.low, c.high)
    && c.volume == VolumeIn(bars, c.timestamp, width)
  }

  lemma BucketIsSpan(t: int, width: int)
    requires width > 0
    ensures BucketStart(t, width) % width == 0 && BucketStart(t, width) <= t < BucketStart(t, width) + width
  {
    BucketBounds(t, width);
    MultipleDivides(t / width, width);
  }

  lemma MultipleDivides(n: int, width: int)
    requires width > 0
    ensures n * width % width == 0
  {
    var product := n * width;
    var q, r := product / width, product % width;
    assert product == q * width + r;
    MultipleOrder(q, n, width);
    MultipleOrder(n, q + 1, width);
    assert (q + 1) * width == q * width + width;
  }

  lemma SpanIsBucket(t: int, start: int, width: int)
    requires width > 0 && start % width == 0
    ensures BucketStart(t, width) == start <==> start <= t < start + width
  {
    BucketBounds(t, width);
    var n := start / width;
    assert start == n * width;
    MultipleOrder(n, t / width + 1, width);
    MultipleOrder(t / width, n + 1, width);
  }

  lemma {:induction false} GroupInOrder(bars: seq<Bar>, start: int, key: int -> int)
    requires Ascending(bars)
    ensures Ascending(InBucket(bars, start, key))
  {
    if bars != [] {
      FrontAscending(bars);
      GroupInOrder(bars[..|bars| - 1], start, key);
    }
  }

  lemma {:induction false} GroupExtremes(group: seq<Bar>)
    requires group != []
    ensures forall b | b in group :: Lowest(group) <= b.low && b.high <= Highest(group)
    ensures exists b | b in group :: b.high == Highest(group)
    ensures exists b | b in group :: b.low == Lowest(group)
  {
    var n := |group|;
    assert group[n - 1] in group;
    if n > 1 {
      var front := group[..n - 1];
      GroupExtremes(front);
      var h :| h in front && h.high == Highest(front);
      var l :| l in front && l.low == Lowest(front);
      assert h in group && l in group;
      assert group == front + [group[n - 1]];
    }
  }

  lemma {:induction false} VolumeInSnoc(bars: seq<Bar>, b: Bar, start: int, width: int)
    ensures VolumeIn(bars + [b], start, width) ==
            VolumeIn(bars, start, width) + if InSpan(b, start, width) then b.volume else 0.0
  {
    if bars == [] {
      assert [b][1..] == [];
      assert bars + [b] == [b];
    } else {
      assert (bars + [b])[1..] == bars[1..] + [b];
      VolumeInSnoc(bars[1..], b, start, width);
    }
  }

  lemma {:induction false} GroupVolume(bars: seq<Bar>, start: int, width: int)
    requires width > 0 && start % width == 0
    ensures Volume(InBucket(bars, start, Buckets(width))) == VolumeIn(bars, start, width)
  {
    hide BucketStart, VolumeIn, InSpan, Volume;
    if bars == [] {
      NoVolume(start, width);
    } else {
      var front, last := bars[..|bars| - 1], bars[|bars| - 1];
      assert bars == front + [last];
      GroupVolume(front, start, width);
      VolumeInSnoc(front, last, start, width);
      SpanIsBucket(last.timestamp, start, width);
      InThisSpan(last, start, width);
      VolumeSnoc(InBucket(front, start, Buckets(width)), last);
    }
  }

  lemma NoVolume(start: int, width: int)
    ensures Volume([]) == VolumeIn([], start, width) == 0.0
  {
  }

  lemma InThisSpan(b: Bar, start: int, width: int)
    ensures InSpan(b, start, width) <==> start <= b.timestamp < start + width
  {
  }

  lemma VolumeSnoc(group: seq<Bar>, b: Bar)
    ensures Volume(group + [b]) == Volume(group) + b.volume && group + [] == group
  {
    assert (group + [b])[..|group|] == group;
  }

  lemma GroupIsSpan(bars: seq<Bar>, start: int, width: int)
    requires width > 0 && start % width == 0
    ensures forall b :: b in InBucket(bars, start, Buckets(width)) <==> b in bars && InSpan(b, start, width)
  {
    forall b: Bar
      ensures Buckets(width)(b.timestamp) == start <==> InSpan(b, start, width)
    {
      SpanIsBucket(b.timestamp, start, width);
    }
    hide BucketStart;
  }

  lemma SummaryReads(bars: seq<Bar>, width: int, c: Bar)
    requires width > 0 && Ascending(bars) && Summarizes(c, bars, Buckets(width))
    ensures CandleReads(bars, width, c)
  {
    var group := InBucket(bars, c.timestamp, Buckets(width));
    assert group[0] in group && group[|group| - 1] in group;
    BucketIsSpan(group[0].timestamp, width);
    GroupIsSpan(bars, c.timestamp, width);
    GroupInOrder(bars, c.timestamp, Buckets(width));
    GroupExtremes(group);
    GroupVolume(bars, c.timestamp, width);
    hide BucketStart, InBucket, Highest, Lowest, Volume, VolumeIn;
    ReadsGroup(bars, group, c.timestamp, width);
  }

  /** A group holding exactly the bars of a span, in time order, opens and closes it and covers its range. */
  lemma ReadsGroup(bars: seq<Bar>, group: seq<Bar>, start: int, width: int)
    requires group != [] && Ascending(group)
    requires forall b :: b in group <==> b in bars && InSpan(b, start, width)
    requires forall b | b in group :: Lowest(group) <= b.low && b.high <= Highest(group)
    requires exists b | b in group :: b.high == Highest(group)
    requires exists b | b in group :: b.low == Lowest(group)
    ensures OpensWith(bars, start, width, group[0].open)
    ensures ClosesWith(bars, start, width, group[|group| - 1].close)
    ensures Spans(bars, start, width, Lowest(group), Highest(group))
  {
    hide Highest, Lowest, InSpan;
    assert group[0] in group && group[|group| - 1] in group;
    forall b | b in group
      ensures group[0].timestamp <= b.timestamp <= group[|group| - 1].timestamp
    {
      var i :| 0 <= i < |group| && group[i] == b;
    }
  }

  /**
   * Main result: a resampled history keeps the symbol, carries the target interval, and lists in time order one candle
   * per span that holds a bar, each reading exactly its span; together with the order that fixes the series.
   */
  lemma ResampleReads(history: PriceHistory, target: BarInterval)
    requires ValidHistory(history) && Resample(history, target).Ok?
    ensures var out := Resample(history, target).history;
            && out.symbol == history.symbol && out.interval == target && Ascending(out.bars)
            && (forall c | c in out.bars :: CandleReads(history.bars, Width(target), c))
            && (forall b | b in history.bars :: exists c | c in out.bars :: InSpan(b, c.timestamp, Width(target)))
  {
    hide CandleReads, Candle, InBucket, BucketStart, Aggregate, Width, Minutes, Volume, Summarizes, Covered, InSpan;
    var width := Width(target);
    ResampleValid(history, target);
    var out := Resample(history, target).history;
    forall c | c in out.bars
      ensures CandleReads(history.bars, width, c)
    {
      assert Summarizes(c, history.bars, Buckets(width));
      SummaryReads(history.bars, width, c);
    }
    forall b | b in history.bars
      ensures exists c | c in out.bars :: InSpan(b, c.timestamp, width)
    {
      assert Covered(out.bars, b, Buckets(width));
      CoveredBySpan(out.bars, b, width);
    }
  }

  lemma CoveredBySpan(out: seq<Bar>, b: Bar, width: int)
    requires width > 0 && Covered(out, b, Buckets(width))
    ensures exists c | c in out :: InSpan(b, c.timestamp, width)
  {
    hide BucketStart;
    BucketIsSpan(b.timestamp, width);
  }

  /** Only four-hour bars are synthetic: from hourly bars that reach four hours further back; all else is passed on. */
  lemma FetchAsks(inner: Provider, symbol: string, interval: BarInterval, start: int, end: Option<int>)
    ensures interval != Hour4 ==>
            GetBars(inner, symbol, interval, start, end) == Ok(inner(symbol, interval, start, end))
    ensures interval == Hour4 ==>
              GetBars(inner, symbol, interval, start, end) ==
              Resample(inner(symbol, Hour1, start - 4 * 60 * 60 * 1_000_000, end), Hour4)
  {
  }

  /** Five one-minute bars, three of those, four of those, four of those, six of those, and seven days to a week. */
  lemma WidthsNest()
    ensures Width(Min1) == 60 * 1_000_000 && Width(Min5) == 5 * Width(Min1) && Width(Min15) == 3 * Width(Min5)
    ensures Width(Hour1) == 4 * Width(Min15) && Width(Hour4) == 4 * Width(Hour1)
    ensures Width(Day1) == 6 * Width(Hour4) && Width(Week1) == 7 * Width(Day1)
  {
  }
}
