/** The provider decorator: fetch a widened window of finer bars, then aggregate. */
module FetchWindow {
  import opened Numeric
  import opened Market
  import opened Resampling

  /** A market data provider: symbol, interval, start and optional end to a history. */
  type Provider = (string, BarInterval, int, Option<int>) -> PriceHistory

  function SourceInterval(interval: BarInterval): Option<BarInterval> {
    if interval == Hour4 then Some(Hour1) else None
  }

  function GetBars(inner: Provider, symbol: string, interval: BarInterval, start: int, end: Option<int>): Resampled {
    match SourceInterval(interval)
    case None => Ok(inner(symbol, interval, start, end))
    case Some(source) => Resample(inner(symbol, source, start - Width(interval), end), interval)
  }

  function Kept(bars: seq<Bar>, keep: int -> bool): (kept: seq<Bar>)
    ensures forall b :: b in kept <==> b in bars && keep(b.timestamp)
  {
    if bars == [] then []
    else
      var last := bars[|bars| - 1];
      Kept(bars[..|bars| - 1], keep) + if keep(last.timestamp) then [last] else []
  }

  lemma {:induction false} KeptAscending(bars: seq<Bar>, keep: int -> bool)
    requires Ascending(bars)
    ensures Ascending(Kept(bars, keep))
  {
    if bars != [] {
      FrontAscending(bars);
      KeptAscending(bars[..|bars| - 1], keep);
      var front := Kept(bars[..|bars| - 1], keep);
      forall b | b in front
        ensures b.timestamp < bars[|bars| - 1].timestamp
      {
      }
    }
  }

  /** A range keeps everything from its start up to its end, nothing outside; a bar exactly at the end may go
   * either way.
   */
  ghost predicate Range(keep: int -> bool, start: int, end: Option<int>) {
    forall t: int ::
      && (start <= t && (end.None? || t < end.value) ==> keep(t))
      && (keep(t) ==> start <= t && (end.None? || t <= end.value))
  }

  /** The source answers every request with exactly the bars of one entire series that lie in range. */
  ghost predicate Serves(inner: Provider, all: PriceHistory) {
    forall start: int, end: Option<int> ::
      var answer := inner(all.symbol, all.interval, start, end);
      && answer.symbol == all.symbol && answer.interval == all.interval
      && exists keep: int -> bool :: Range(keep, start, end) && answer.bars == Kept(all.bars, keep)
  }

  lemma {:induction false} KeptBucket(bars: seq<Bar>, keep: int -> bool, k: int, key: int -> int)
    requires forall t: int | key(t) == k :: keep(t)
    ensures InBucket(Kept(bars, keep), k, key) == InBucket(bars, k, key)
  {
    if bars != [] {
      var front, last := bars[..|bars| - 1], bars[|bars| - 1];
      KeptBucket(front, keep, k, key);
      if keep(last.timestamp) {
        InBucketSnoc(Kept(front, keep), last, k, key);
      } else {
        assert key(last.timestamp) != k;
        assert Kept(bars, keep) == Kept(front, keep);
      }
    }
  }

  lemma SpanKept(keep: int -> bool, start: int, end: Option<int>, k: int, width: int)
    requires width > 0 && Range(keep, start - width, end)
    requires start - width <= k && (end.None? || k + width <= end.value)
    ensures forall t: int | Buckets(width)(t) == k :: keep(t)
  {
    forall t: int | Buckets(width)(t) == k
      ensures keep(t)
    {
      BucketBounds(t, width);
    }
  }

  /** The candle's bucket is over by the end of the request. */
  predicate Ends(c: Bar, end: Option<int>, width: int) { end.None? || c.timestamp + width <= end.value }

  /** The candle's whole bucket lies inside the widened request. */
  predicate WholeSpan(c: Bar, start: int, end: Option<int>, width: int) {
    start - width <= c.timestamp && Ends(c, end, width)
  }

  lemma CandleTransfers(xs: seq<Bar>, ys: seq<Bar>, from: seq<Bar>, to: seq<Bar>, key: int -> int, c: Bar)
    requires Candles(xs, from, key) && Candles(ys, to, key)
    requires c in xs && InBucket(from, c.timestamp, key) == InBucket(to, c.timestamp, key)
    ensures c in ys
  {
    assert Summarizes(c, from, key);
    var group := InBucket(to, c.timestamp, key);
    var b := group[0];
    assert b in group && Covered(ys, b, key);
    var d :| d in ys && d.timestamp == key(b.timestamp);
    assert Summarizes(d, to, key);
  }

  /** Main result: every bucket that lies wholly inside the widened request is as in the full series. */
  lemma WidenedFetchIsComplete(inner: Provider, all: PriceHistory, interval: BarInterval, start: int, end: Option<int>)
    requires ValidHistory(all) && Serves(inner, all) && SourceInterval(interval) == Some(all.interval)
    ensures Resample(all, interval).Ok? && GetBars(inner, all.symbol, interval, start, end).Ok?
    ensures forall c | WholeSpan(c, start, end, Width(interval)) ::
              c in GetBars(inner, all.symbol, interval, start, end).history.bars <==>
                c in Resample(all, interval).history.bars
  {
    var width := Width(interval);
    var key := Buckets(width);
    var answer := inner(all.symbol, all.interval, start - width, end);
    var keep: int -> bool :| Range(keep, start - width, end) && answer.bars == Kept(all.bars, keep);
    BucketsNeverBack(width);
    KeptAscending(all.bars, keep);
    AggregateIsCandles(answer.bars, key);
    AggregateIsCandles(all.bars, key);
    var xs, ys := Aggregate(answer.bars, key), Aggregate(all.bars, key);
    forall c | WholeSpan(c, start, end, width)
      ensures c in xs <==> c in ys
    {
      SpanKept(keep, start, end, c.timestamp, width);
      KeptBucket(all.bars, keep, c.timestamp, key);
      if c in xs {
        CandleTransfers(xs, ys, answer.bars, all.bars, key, c);
      }
      if c in ys {
        CandleTransfers(ys, xs, all.bars, answer.bars, key, c);
      }
    }
  }

  /**
   * The bucket holding `start` always lies inside. The one before it, which the widened fetch also
   * reaches into, does so exactly when `start` is itself a boundary.
   */
  lemma WhichBucketsAreInside(start: int, width: int)
    requires width > 0
    ensures start - width <= BucketStart(start, width)
    ensures start - width <= BucketStart(start, width) - width <==> BucketStart(start, width) == start
  {
    BucketBounds(start, width);
  }

  /** So from the bucket holding `start` onward, every candle whose span ends by `end` is as in the full series. */
  lemma BucketsFromStartAreWhole(inner: Provider, all: PriceHistory, interval: BarInterval, start: int,
    end: Option<int>)
    requires ValidHistory(all) && Serves(inner, all) && SourceInterval(interval) == Some(all.interval)
    ensures Resample(all, interval).Ok? && GetBars(inner, all.symbol, interval, start, end).Ok?
    ensures forall c: Bar | BucketStart(start, Width(interval)) <= c.timestamp && Ends(c, end, Width(interval)) ::
              c in GetBars(inner, all.symbol, interval, start, end).history.bars <==>
                c in Resample(all, interval).history.bars
  {
    WidenedFetchIsComplete(inner, all, interval, start, end);
    WhichBucketsAreInside(start, Width(interval));
  }

  lemma BucketOnGrid(t: int, width: int)
    requires width > 0
    ensures BucketStart(BucketStart(t, width), width) == BucketStart(t, width)
    ensures BucketStart(t - width, width) == BucketStart(t, width) - width
  {
    BucketOfMultiple(t / width, width);
    assert (t - width) / width == t / width - 1 by {
      BucketBounds(t, width);
      BucketBounds(t - width, width);
      MultipleOrder(t / width - 1, (t - width) / width + 1, width);
      MultipleOrder((t - width) / width, t / width, width);
    }
  }

  /** With `start` on a boundary nothing is cut at the front: every candle that ends by `end` is a candle of the
   * full series.
   */
  lemma AlignedStartIsWhole(inner: Provider, all: PriceHistory, interval: BarInterval, start: int, end: Option<int>)
    requires ValidHistory(all) && Serves(inner, all) && SourceInterval(interval) == Some(all.interval)
    requires BucketStart(start, Width(interval)) == start
    ensures Resample(all, interval).Ok? && GetBars(inner, all.symbol, interval, start, end).Ok?
    ensures forall c: Bar | c in GetBars(inner, all.symbol, interval, start, end).history.bars
            && Ends(c, end, Width(interval)) ::
              c in Resample(all, interval).history.bars
  {
    hide BucketStart, Serves;
    WidenedFetchIsComplete(inner, all, interval, start, end);
    var answer := ServedBars(inner, all, start - Width(interval), end);
    BucketOnGrid(start, Width(interval));
    forall c | c in Aggregate(answer, Buckets(Width(interval)))
      ensures start - Width(interval) <= c.timestamp
    {
      NoCandleBefore(answer, start - Width(interval), Width(interval), c);
    }
  }

  lemma ServedBars(inner: Provider, all: PriceHistory, start: int, end: Option<int>) returns (bars: seq<Bar>)
    requires ValidHistory(all) && Serves(inner, all)
    ensures inner(all.symbol, all.interval, start, end) == PriceHistory(all.symbol, all.interval, bars)
    ensures Ascending(bars) && forall b | b in bars :: start <= b.timestamp
  {
    bars := inner(all.symbol, all.interval, start, end).bars;
    var keep: int -> bool :| Range(keep, start, end) && bars == Kept(all.bars, keep);
    KeptAscending(all.bars, keep);
  }

  lemma NoCandleBefore(bars: seq<Bar>, low: int, width: int, c: Bar)
    requires width > 0 && Ascending(bars) && BucketStart(low, width) == low
    requires forall b | b in bars :: low <= b.timestamp
    requires c in Aggregate(bars, Buckets(width))
    ensures low <= c.timestamp
  {
    hide BucketStart;
    var key := Buckets(width);
    BucketsNeverBack(width);
    AggregateIsCandles(bars, key);
    assert Summarizes(c, bars, key);
    var b := InBucket(bars, c.timestamp, key)[0];
    assert b in InBucket(bars, c.timestamp, key);
    BucketMonotone(low, b.timestamp, width);
  }

  // A start off the boundary cuts some series.

  function Tick(t: int): Bar { Bar(t, 1.0, 1.0, 1.0, 1.0, 1.0) }

  function Between(start: int, end: Option<int>): int -> bool {
    (t: int) => start <= t && (end.None? || t <= end.value)
  }

  function Recorded(bars: seq<Bar>): Provider {
    (symbol: string, interval: BarInterval, start: int, end: Option<int>) =>
      PriceHistory(symbol, interval, Kept(bars, Between(start, end)))
  }

  lemma RecordedServes(all: PriceHistory)
    ensures Serves(Recorded(all.bars), all)
  {
    forall start: int, end: Option<int>
      ensures exists keep: int -> bool ::
                Range(keep, start, end)
                  && Recorded(all.bars)(all.symbol, all.interval, start, end).bars == Kept(all.bars, keep)
    {
      assert Range(Between(start, end), start, end);
    }
  }

  lemma AggregateTick(bars: seq<Bar>, key: int -> int)
    requires |bars| == 1
    ensures Aggregate(bars, key) == [Opened(bars[0], key)]
  {
    assert bars[..0] == [];
    assert Aggregate(bars[..0], key) == [];
  }

  lemma KeptTicks(early: int, late: int)
    requires early < late
    ensures Kept([Tick(early), Tick(late)], Between(late, None)) == [Tick(late)]
  {
    var keep := Between(late, None);
    var bars := [Tick(early), Tick(late)];
    assert bars[..1] == [Tick(early)];
    assert [Tick(early)][..0] == [];
    assert Kept([Tick(early)][..0], keep) == [];
    assert Kept([Tick(early)], keep) == [];
  }

  lemma AggregateTicks(early: int, late: int, key: int -> int)
    requires key(early) == early && key(late) == early
    ensures Aggregate([Tick(early), Tick(late)], key) == [Bar(early, 1.0, 1.0, 1.0, 1.0, 2.0)]
  {
    assert [Tick(early), Tick(late)][..1] == [Tick(early)];
    AggregateTick([Tick(early)], key);
  }

  /**
   * For every other start some series is cut: of two bars in the bucket the widened fetch reaches into, the one before
   * the widened start is missing from the first candle returned.
   */
  lemma UnalignedStartCuts(interval: BarInterval, start: int) returns (all: PriceHistory, first: Bar)
    requires SourceInterval(interval).Some? && BucketStart(start, Width(interval)) != start
    ensures ValidHistory(all) && Serves(Recorded(all.bars), all) && SourceInterval(interval) == Some(all.interval)
    ensures GetBars(Recorded(all.bars), all.symbol, interval, start, None) ==
            Ok(PriceHistory(all.symbol, interval, [first]))
    ensures Resample(all, interval) == Ok(PriceHistory(all.symbol, interval, [first.(volume := 2.0)]))
            && first.volume == 1.0
  {
    hide BucketStart, Serves;
    var width := Width(interval);
    var late := start - width;
    var early := BucketStart(late, width);
    CutTimes(start, width);
    all := PriceHistory("A", SourceInterval(interval).value, [Tick(early), Tick(late)]);
    first := Bar(early, 1.0, 1.0, 1.0, 1.0, 1.0);
    RecordedServes(all);
    KeptTicks(early, late);
    AggregateTick([Tick(late)], Buckets(width));
    AggregateTicks(early, late, Buckets(width));
    RefusedExactlyDownward(all, interval);
    RefusedExactlyDownward(all.(bars := [Tick(late)]), interval);
  }

  lemma CutTimes(start: int, width: int)
    requires width > 0 && BucketStart(start, width) != start
    ensures BucketStart(start - width, width) < start - width
    ensures BucketStart(BucketStart(start - width, width), width) == BucketStart(start - width, width)
  {
    BucketBounds(start - width, width);
    BucketOnGrid(start, width);
    BucketOnGrid(start - width, width);
  }

  /** Whatever the provider holds, every candle returned from `start` on is a candle of the full series. */
  ghost predicate AlwaysWhole(interval: BarInterval, start: int) {
    forall inner: Provider, all: PriceHistory
      | ValidHistory(all) && Serves(inner, all) && SourceInterval(interval) == Some(all.interval) ::
        Whole(GetBars(inner, all.symbol, interval, start, None), Resample(all, interval))
  }

  ghost predicate Whole(fetched: Resampled, full: Resampled) {
    fetched.Ok? && full.Ok? && forall c | c in fetched.history.bars :: c in full.history.bars
  }

  /** The widened fetch never returns a partial candle exactly when `start` is a bucket boundary. */
  lemma WholeExactlyWhenAligned(interval: BarInterval, start: int)
    requires SourceInterval(interval).Some?
    ensures AlwaysWhole(interval, start) <==> BucketStart(start, Width(interval)) == start
  {
    if BucketStart(start, Width(interval)) == start {
      forall inner: Provider, all: PriceHistory
        | ValidHistory(all) && Serves(inner, all) && SourceInterval(interval) == Some(all.interval)
        ensures Whole(GetBars(inner, all.symbol, interval, start, None), Resample(all, interval))
      {
        AlignedStartIsWhole(inner, all, interval, start, None);
      }
    } else {
      var all, first := UnalignedStartCuts(interval, start);
      assert first in [first] && first !in [first.(volume := 2.0)];
      assert !Whole(GetBars(Recorded(all.bars), all.symbol, interval, start, None), Resample(all, interval));
    }
  }
}
