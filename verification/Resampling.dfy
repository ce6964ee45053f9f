/** Aggregation of bars into a higher timeframe on fixed UTC boundaries. */
module Resampling {
  import opened Numeric
  import opened Sorting
  import opened Market

  datatype Resampled = Ok(history: PriceHistory) | NotHigher | NotMultiple

  function BucketStart(timestamp: int, width: int): int
    requires width > 0
  {
    timestamp / width * width
  }

  lemma MultipleOrder(a: int, b: int, width: int)
    requires width > 0
    ensures a * width < b * width <==> a < b
    ensures a * width <= b * width <==> a <= b
  {
    if a < b {
      assert (b - a) * width > 0;
    } else if b < a {
      assert (a - b) * width > 0;
    }
  }

  lemma BucketBounds(t: int, width: int)
    requires width > 0
    ensures BucketStart(t, width) <= t < BucketStart(t, width) + width
  {
    assert t == t / width * width + t % width;
  }

  lemma BucketMonotone(t: int, u: int, width: int)
    requires width > 0 && t <= u
    ensures BucketStart(t, width) <= BucketStart(u, width)
  {
    BucketBounds(t, width);
    BucketBounds(u, width);
    var q, r := t / width, u / width;
    assert q * width < (r + 1) * width;
    MultipleOrder(q, r + 1, width);
    MultipleOrder(q, r, width);
  }

  /** Which bucket a timestamp belongs to; the grouping below needs only that it never steps back. */
  function Buckets(width: int): int -> int
    requires width > 0
  {
    (t: int) => BucketStart(t, width)
  }

  ghost predicate NeverBack(key: int -> int) {
    forall t: int, u: int | t <= u :: key(t) <= key(u)
  }

  lemma BucketsNeverBack(width: int)
    requires width > 0
    ensures NeverBack(Buckets(width))
  {
    forall t: int, u: int | t <= u
      ensures Buckets(width)(t) <= Buckets(width)(u)
    {
      BucketMonotone(t, u, width);
    }
  }

  // The grouping as resample.py performs it.

  function InBucket(bars: seq<Bar>, start: int, key: int -> int): (group: seq<Bar>)
    ensures forall b | b in group :: b in bars && key(b.timestamp) == start
    ensures forall b | b in bars && key(b.timestamp) == start :: b in group
  {
    if bars == [] then []
    else
      var last := bars[|bars| - 1];
      InBucket(bars[..|bars| - 1], start, key) + if key(last.timestamp) == start then [last] else []
  }

  lemma InBucketSnoc(bars: seq<Bar>, b: Bar, start: int, key: int -> int)
    ensures InBucket(bars + [b], start, key) ==
              InBucket(bars, start, key) + if key(b.timestamp) == start then [b] else []
  {
    assert (bars + [b])[..|bars|] == bars;
  }

  function Highest(group: seq<Bar>): real
    requires group != []
  {
    if |group| == 1 then group[0].high else Max(Highest(group[..|group| - 1]), group[|group| - 1].high)
  }

  function Lowest(group: seq<Bar>): real
    requires group != []
  {
    if |group| == 1 then group[0].low else Min(Lowest(group[..|group| - 1]), group[|group| - 1].low)
  }

  function Volume(group: seq<Bar>): real {
    if group == [] then 0.0 else Volume(group[..|group| - 1]) + group[|group| - 1].volume
  }

  function Candle(start: int, group: seq<Bar>): Bar
    requires group != []
  {
    Bar(start, group[0].open, Highest(group), Lowest(group), group[|group| - 1].close, Volume(group))
  }

  ghost predicate Summarizes(c: Bar, bars: seq<Bar>, key: int -> int)
  {
    var group := InBucket(bars, c.timestamp, key);
    group != [] && c == Candle(c.timestamp, group)
  }

  ghost predicate Covered(out: seq<Bar>, b: Bar, key: int -> int)
  {
    exists c | c in out :: c.timestamp == key(b.timestamp)
  }

  /** What a resampled series is: one candle per non-empty bucket, in time order, and nothing else. */
  ghost predicate Candles(out: seq<Bar>, bars: seq<Bar>, key: int -> int)
  {
    && Ascending(out)
    && (forall c | c in out :: Summarizes(c, bars, key))
    && (forall b | b in bars :: Covered(out, b, key))
  }

  lemma SameStart(out: seq<Bar>, c: Bar, d: Bar)
    requires Ascending(out) && c in out && d in out && c.timestamp == d.timestamp
    ensures c == d
  {
    var i :| 0 <= i < |out| && out[i] == c;
    var j :| 0 <= j < |out| && out[j] == d;
    assert i == j;
  }

  lemma SubsetOfCandles(xs: seq<Bar>, ys: seq<Bar>, bars: seq<Bar>, key: int -> int)
    requires Candles(xs, bars, key) && Candles(ys, bars, key)
    ensures forall c | c in xs :: c in ys
  {
    forall c | c in xs
      ensures c in ys
    {
      assert Summarizes(c, bars, key);
      var b := InBucket(bars, c.timestamp, key)[0];
      assert b in InBucket(bars, c.timestamp, key) && b in bars;
      assert Covered(ys, b, key);
      var d :| d in ys && d.timestamp == key(b.timestamp);
      assert Summarizes(d, bars, key);
    }
  }

  lemma {:induction false} AscendingUnique(xs: seq<Bar>, ys: seq<Bar>)
    requires Ascending(xs) && Ascending(ys)
    requires forall c :: c in xs <==> c in ys
    ensures xs == ys
  {
    assert xs != [] ==> xs[0] in ys;
    assert ys != [] ==> ys[0] in xs;
    if xs != [] {
      assert xs[0] in ys && ys[0] in xs;
      assert xs[0] == ys[0];
      forall c
        ensures c in xs[1..] <==> c in ys[1..]
      {
        assert c in xs <==> c == xs[0] || c in xs[1..];
        assert c in ys <==> c == ys[0] || c in ys[1..];
      }
      AscendingUnique(xs[1..], ys[1..]);
    }
  }

  /** The predicate determines the series. */
  lemma CandlesUnique(xs: seq<Bar>, ys: seq<Bar>, bars: seq<Bar>, key: int -> int)
    requires Candles(xs, bars, key) && Candles(ys, bars, key)
    ensures xs == ys
  {
    SubsetOfCandles(xs, ys, bars, key);
    SubsetOfCandles(ys, xs, bars, key);
    AscendingUnique(xs, ys);
  }

  // The same series, built one bar at a time.

  function Opened(b: Bar, key: int -> int): Bar
  {
    b.(timestamp := key(b.timestamp))
  }

  function Merge(c: Bar, b: Bar): Bar {
    c.(high := Max(c.high, b.high), low := Min(c.low, b.low), close := b.close, volume := c.volume + b.volume)
  }

  function Extend(out: seq<Bar>, b: Bar, key: int -> int): seq<Bar>
  {
    if out != [] && out[|out| - 1].timestamp == key(b.timestamp)
    then out[..|out| - 1] + [Merge(out[|out| - 1], b)]
    else out + [Opened(b, key)]
  }

  function Aggregate(bars: seq<Bar>, key: int -> int): seq<Bar>
  {
    if bars == [] then [] else Extend(Aggregate(bars[..|bars| - 1], key), bars[|bars| - 1], key)
  }

  lemma FrontAscending(bars: seq<Bar>)
    requires bars != [] && Ascending(bars)
    ensures Ascending(bars[..|bars| - 1])
    ensures forall b | b in bars[..|bars| - 1] :: b in bars && b.timestamp < bars[|bars| - 1].timestamp
  {
  }

  lemma CandleNotAfter(bars: seq<Bar>, b: Bar, key: int -> int, c: Bar)
    requires NeverBack(key) && Summarizes(c, bars, key)
    requires forall e | e in bars :: e.timestamp < b.timestamp
    ensures c.timestamp <= key(b.timestamp)
  {
    var e := InBucket(bars, c.timestamp, key)[0];
    assert e in InBucket(bars, c.timestamp, key);
    assert key(e.timestamp) <= key(b.timestamp);
  }

  lemma NoneAfter(out: seq<Bar>, bars: seq<Bar>, b: Bar, key: int -> int)
    requires NeverBack(key) && Candles(out, bars, key)
    requires forall e | e in bars :: e.timestamp < b.timestamp
    ensures forall c | c in out :: c.timestamp <= key(b.timestamp)
  {
    forall c | c in out
      ensures c.timestamp <= key(b.timestamp)
    {
      assert Summarizes(c, bars, key);
      CandleNotAfter(bars, b, key, c);
    }
  }

  lemma AtTheEnd(out: seq<Bar>, c: Bar)
    requires Ascending(out) && c in out && forall d | d in out :: d.timestamp <= c.timestamp
    ensures out[|out| - 1] == c
  {
    var i :| 0 <= i < |out| && out[i] == c;
    assert out[|out| - 1] in out;
  }

  /** A bucket that has begun stays the last one until the next boundary. */
  lemma LastBucket(out: seq<Bar>, bars: seq<Bar>, b: Bar, key: int -> int)
    requires NeverBack(key) && Candles(out, bars, key)
    requires forall e | e in bars :: e.timestamp < b.timestamp
    ensures forall c | c in out :: c.timestamp <= key(b.timestamp)
    ensures InBucket(bars, key(b.timestamp), key) != [] ==>
              out != [] && out[|out| - 1].timestamp == key(b.timestamp)
  {
    NoneAfter(out, bars, b, key);
    var group := InBucket(bars, key(b.timestamp), key);
    if group != [] {
      var e := group[0];
      assert e in group && Covered(out, e, key);
      var c :| c in out && c.timestamp == key(e.timestamp);
      AtTheEnd(out, c);
    }
  }

  lemma CandleSnoc(start: int, group: seq<Bar>, b: Bar)
    requires group != []
    ensures Candle(start, group + [b]) == Merge(Candle(start, group), b)
  {
    assert (group + [b])[..|group|] == group;
  }

  lemma LoneCandle(b: Bar, key: int -> int)
    ensures Candle(key(b.timestamp), [b]) == Opened(b, key)
  {
    assert [b][..0] == [];
    assert Volume([b]) == Volume([b][..0]) + b.volume;
  }

  /** The newest candle of the extended series summarises the newest bucket. */
  lemma LatestCandle(out: seq<Bar>, bars: seq<Bar>, b: Bar, key: int -> int)
    requires NeverBack(key) && Candles(out, bars, key)
    requires forall e | e in bars :: e.timestamp < b.timestamp
    ensures var start := key(b.timestamp);
            Extend(out, b, key)[|Extend(out, b, key)| - 1] == Candle(start, InBucket(bars, start, key) + [b])
  {
    var start := key(b.timestamp);
    hide InBucket, Candle;
    var group := InBucket(bars, start, key);
    LastBucket(out, bars, b, key);
    if out != [] {
      assert Summarizes(out[|out| - 1], bars, key);
    }
    if group == [] {
      assert group + [b] == [b];
      LoneCandle(b, key);
    } else {
      CandleSnoc(start, group, b);
    }
  }

  lemma LatestSummarizes(out: seq<Bar>, bars: seq<Bar>, b: Bar, key: int -> int)
    requires NeverBack(key) && Candles(out, bars, key)
    requires forall e | e in bars :: e.timestamp < b.timestamp
    ensures Summarizes(Extend(out, b, key)[|Extend(out, b, key)| - 1], bars + [b], key)
  {
    LatestCandle(out, bars, b, key);
    InBucketSnoc(bars, b, key(b.timestamp), key);
  }

  lemma OlderSummarizes(bars: seq<Bar>, b: Bar, key: int -> int, c: Bar)
    requires Summarizes(c, bars, key) && c.timestamp != key(b.timestamp)
    ensures Summarizes(c, bars + [b], key)
  {
    InBucketSnoc(bars, b, c.timestamp, key);
    assert InBucket(bars + [b], c.timestamp, key) == InBucket(bars, c.timestamp, key);
  }

  lemma ExtendCovers(out: seq<Bar>, bars: seq<Bar>, b: Bar, key: int -> int, e: Bar)
    requires Candles(out, bars, key) && e in bars + [b]
    ensures Covered(Extend(out, b, key), e, key)
  {
    var next := Extend(out, b, key);
    if key(e.timestamp) == key(b.timestamp) {
      assert next[|next| - 1] in next;
    } else {
      assert Covered(out, e, key);
      var c :| c in out && c.timestamp == key(e.timestamp);
      KeptByExtend(out, b, key, c);
    }
  }

  lemma ExtendIsCandles(out: seq<Bar>, bars: seq<Bar>, b: Bar, key: int -> int)
    requires NeverBack(key) && Candles(out, bars, key)
    requires forall e | e in bars :: e.timestamp < b.timestamp
    ensures Candles(Extend(out, b, key), bars + [b], key)
  {
    LastBucket(out, bars, b, key);
    AscendingAfterExtend(out, b, key);
    LatestSummarizes(out, bars, b, key);
    var next := Extend(out, b, key);
    var latest := next[|next| - 1];
    forall c | c in next
      ensures Summarizes(c, bars + [b], key)
    {
      if c.timestamp == latest.timestamp {
        SameStart(next, c, latest);
      } else {
        KeptByExtend(out, b, key, c);
        OlderSummarizes(bars, b, key, c);
      }
    }
    forall e | e in bars + [b]
      ensures Covered(Extend(out, b, key), e, key)
    {
      ExtendCovers(out, bars, b, key, e);
    }
  }

  /** Candles of earlier buckets are untouched. */
  lemma KeptByExtend(out: seq<Bar>, b: Bar, key: int -> int, c: Bar)
    requires c.timestamp != key(b.timestamp)
    ensures c in Extend(out, b, key) <==> c in out
  {
    var next := Extend(out, b, key);
    if |next| == |out| {
      assert out == out[..|out| - 1] + [out[|out| - 1]];
    }
  }

  lemma AscendingAfterExtend(out: seq<Bar>, b: Bar, key: int -> int)
    requires Ascending(out)
    requires forall c | c in out :: c.timestamp <= key(b.timestamp)
    ensures Ascending(Extend(out, b, key))
  {
    if out != [] {
      assert out[|out| - 1] in out;
    }
  }

  /** Main result: building the candles bar by bar yields exactly the buckets' candles. */
  lemma {:induction false} AggregateIsCandles(bars: seq<Bar>, key: int -> int)
    requires NeverBack(key) && Ascending(bars)
    ensures Candles(Aggregate(bars, key), bars, key)
  {
    if bars != [] {
      var front, last := bars[..|bars| - 1], bars[|bars| - 1];
      FrontAscending(bars);
      AggregateIsCandles(front, key);
      ExtendIsCandles(Aggregate(front, key), front, last, key);
      assert bars == front + [last];
    }
  }

  // Validity of what comes out.

  lemma {:induction false} AggregateValid(bars: seq<Bar>, key: int -> int)
    requires forall b | b in bars :: ValidBar(b)
    ensures forall c | c in Aggregate(bars, key) :: ValidBar(c)
  {
    if bars != [] {
      var front, last := bars[..|bars| - 1], bars[|bars| - 1];
      AggregateValid(front, key);
      var out := Aggregate(front, key);
      assert out != [] ==> out[|out| - 1] in out;
      assert ValidBar(last);
    }
  }

  /** Nothing traded is lost or counted twice. */
  lemma {:induction false} VolumeConserved(bars: seq<Bar>, key: int -> int)
    ensures Volume(Aggregate(bars, key)) == Volume(bars)
  {
    if bars != [] {
      var front, last := bars[..|bars| - 1], bars[|bars| - 1];
      VolumeConserved(front, key);
      var out := Aggregate(front, key);
      var next := Extend(out, last, key);
      if |next| == |out| {
        assert next[..|next| - 1] == out[..|out| - 1];
      } else {
        assert next[..|next| - 1] == out;
      }
    }
  }

  // Composition.

  ghost predicate Coarsens(fine: int -> int, coarse: int -> int) {
    forall t: int :: coarse(fine(t)) == coarse(t)
  }

  lemma FloorOfFloor(t: int, fine: int, ratio: int)
    requires fine > 0 && ratio > 0
    ensures BucketStart(BucketStart(t, fine), fine * ratio) == BucketStart(t, fine * ratio)
  {
    var coarse := fine * ratio;
    var f := BucketStart(t, fine);
    BucketBounds(t, fine);
    BucketMonotone(f, t, coarse);
    BucketBounds(t, coarse);
    var c := t / coarse;
    assert c * coarse == c * ratio * fine;
    MultipleOrder(c * ratio, t / fine + 1, fine);
    MultipleOrder(c * ratio, t / fine, fine);
    BucketMonotone(c * coarse, f, coarse);
    BucketOfMultiple(c, coarse);
  }

  lemma BucketOfMultiple(c: int, width: int)
    requires width > 0
    ensures BucketStart(c * width, width) == c * width
  {
    BucketBounds(c * width, width);
    MultipleOrder(c, c * width / width + 1, width);
    MultipleOrder(c * width / width, c, width);
  }

  lemma BucketsCoarsen(fine: int, ratio: int)
    requires fine > 0 && ratio > 0
    ensures fine * ratio > 0
    ensures Coarsens(Buckets(fine), Buckets(fine * ratio))
  {
    MultipleOrder(0, ratio, fine);
    forall t: int
      ensures Buckets(fine * ratio)(Buckets(fine)(t)) == Buckets(fine * ratio)(t)
    {
      FloorOfFloor(t, fine, ratio);
    }
  }

  lemma ExtendTwiceIsMerge(out: seq<Bar>, l: Bar, b: Bar, coarse: int -> int)
    requires coarse(l.timestamp) == coarse(b.timestamp)
    ensures Extend(Extend(out, l, coarse), b, coarse) == Extend(out, Merge(l, b), coarse)
  {
  }

  lemma SameBucketSameExtension(out: seq<Bar>, b: Bar, fine: int -> int, coarse: int -> int)
    requires Coarsens(fine, coarse)
    ensures Extend(out, Opened(b, fine), coarse) == Extend(out, b, coarse)
  {
  }

  /** Main result: resampling in two steps gives exactly what resampling in one step gives. */
  lemma {:induction false} AggregateComposes(bars: seq<Bar>, fine: int -> int, coarse: int -> int)
    requires Coarsens(fine, coarse)
    ensures Aggregate(Aggregate(bars, fine), coarse) == Aggregate(bars, coarse)
  {
    if bars != [] {
      var front, b := bars[..|bars| - 1], bars[|bars| - 1];
      AggregateComposes(front, fine, coarse);
      var mid := Aggregate(front, fine);
      var next := Extend(mid, b, fine);
      if |next| == |mid| {
        var l := mid[|mid| - 1];
        assert next[..|next| - 1] == mid[..|mid| - 1];
        assert coarse(l.timestamp) == coarse(b.timestamp);
        ExtendTwiceIsMerge(Aggregate(mid[..|mid| - 1], coarse), l, b, coarse);
      } else {
        assert next[..|next| - 1] == mid;
        SameBucketSameExtension(Aggregate(mid, coarse), b, fine, coarse);
      }
    }
  }

  // The operation itself.

  function Resample(history: PriceHistory, target: BarInterval): Resampled {
    if Minutes(target) <= Minutes(history.interval) then NotHigher
    else if Minutes(target) % Minutes(history.interval) != 0 then NotMultiple
    else Ok(PriceHistory(history.symbol, target, Aggregate(history.bars, Buckets(Width(target)))))
  }

  /** Every higher interval is a multiple of every lower one, so only direction can be refused. */
  lemma RefusedExactlyDownward(history: PriceHistory, target: BarInterval)
    ensures Resample(history, target).Ok? <==> Minutes(target) > Minutes(history.interval)
  {
  }

  lemma ResampleValid(history: PriceHistory, target: BarInterval)
    requires ValidHistory(history) && Resample(history, target).Ok?
    ensures var out := Resample(history, target).history;
            && ValidHistory(out)
            && Candles(out.bars, history.bars, Buckets(Width(target)))
            && Volume(out.bars) == Volume(history.bars)
  {
    var key := Buckets(Width(target));
    BucketsNeverBack(Width(target));
    AggregateIsCandles(history.bars, key);
    AggregateValid(history.bars, key);
    VolumeConserved(history.bars, key);
  }

  lemma IntervalsNest(middle: BarInterval, target: BarInterval) returns (ratio: int)
    requires Minutes(middle) < Minutes(target)
    ensures ratio > 0 && Minutes(target) == Minutes(middle) * ratio
  {
    match middle
    case Min1 => ratio := Minutes(target);
    case Min5 => ratio := Minutes(target) / 5;
    case Min15 => ratio := Minutes(target) / 15;
    case Hour1 => ratio := Minutes(target) / 60;
    case Hour4 => ratio := Minutes(target) / 240;
    case Day1 => ratio := Minutes(target) / 1_440;
    case Week1 => ratio := 1;
  }

  lemma ScaledMultiple(t: int, m: int, ratio: int, unit: int)
    requires t == m * ratio
    ensures t * unit == m * unit * ratio
  {
  }

  lemma ResampleComposes(history: PriceHistory, middle: BarInterval, target: BarInterval)
    requires Minutes(history.interval) < Minutes(middle) < Minutes(target)
    ensures Resample(history, middle).Ok?
    ensures Resample(Resample(history, middle).history, target) == Resample(history, target)
  {
    var ratio := IntervalsNest(middle, target);
    ScaledMultiple(Minutes(target), Minutes(middle), ratio, MICROS_PER_MINUTE);
    BucketsCoarsen(Width(middle), ratio);
    AggregateComposes(history.bars, Buckets(Width(middle)), Buckets(Width(target)));
    RefusedExactlyDownward(history, middle);
    RefusedExactlyDownward(history, target);
    RefusedExactlyDownward(Resample(history, middle).history, target);
  }

  /** The dictionary resample.py fills: keys in insertion order, each with its bars. */
  ghost predicate Grouped(order: seq<int>, buckets: map<int, seq<Bar>>, bars: seq<Bar>, key: int -> int) {
    && (forall k :: k in order <==> k in buckets)
    && (forall i, j | 0 <= i < j < |order| :: order[i] != order[j])
    && (forall k | k in buckets :: InBucket(bars, k, key) != [] && buckets[k] == InBucket(bars, k, key))
    && (forall b | b in bars :: key(b.timestamp) in buckets)
  }

  function IntLeq(x: int, y: int): bool { x <= y }

  method GroupBars(bars: seq<Bar>, key: int -> int) returns (order: seq<int>, buckets: map<int, seq<Bar>>)
    ensures Grouped(order, buckets, bars, key)
  {
    order, buckets := [], map[];
    for i := 0 to |bars|
      invariant Grouped(order, buckets, bars[..i], key)
    {
      var b := bars[i];
      var start := key(b.timestamp);
      ghost var before := buckets;
      ghost var known := order;
      if start !in buckets {
        order := order + [start];
        buckets := buckets[start := []];
        NotYetSeen(before, bars[..i], start, key);
      }
      buckets := buckets[start := buckets[start] + [b]];
      assert bars[..i + 1] == bars[..i] + [b];
      GroupedExtends(known, before, order, buckets, bars[..i], b, key);
    }
    assert bars[..|bars|] == bars;
  }

  lemma {:induction false} NotYetSeen(buckets: map<int, seq<Bar>>, bars: seq<Bar>, start: int, key: int -> int)
    requires forall b | b in bars :: key(b.timestamp) in buckets
    requires start !in buckets
    ensures InBucket(bars, start, key) == []
  {
    if bars != [] {
      assert bars[|bars| - 1] in bars;
      NotYetSeen(buckets, bars[..|bars| - 1], start, key);
    }
  }

  lemma GroupedExtends(order: seq<int>, buckets: map<int, seq<Bar>>, order': seq<int>, buckets': map<int, seq<Bar>>,
                       bars: seq<Bar>, b: Bar, key: int -> int)
    requires Grouped(order, buckets, bars, key)
    requires var start := key(b.timestamp);
             && order' == (if start in buckets then order else order + [start])
             && buckets' == buckets[start := InBucket(bars, start, key) + [b]]
    ensures Grouped(order', buckets', bars + [b], key)
  {
    var start := key(b.timestamp);
    forall k | k in buckets'
      ensures InBucket(bars + [b], k, key) != [] && buckets'[k] == InBucket(bars + [b], k, key)
    {
      InBucketSnoc(bars, b, k, key);
      if k != start {
        assert k in buckets && buckets'[k] == buckets[k];
        assert InBucket(bars + [b], k, key) == InBucket(bars, k, key);
      }
    }
    forall e | e in bars + [b]
      ensures key(e.timestamp) in buckets'
    {
    }
  }

  /** Grouping into a dictionary, then one candle per key in sorted order. */
  method ResampleBars(history: PriceHistory, target: BarInterval) returns (result: Resampled)
    requires ValidHistory(history)
    ensures result == Resample(history, target)
  {
    hide Candle, Sort, Aggregate, Candles, NeverBack;
    if Minutes(target) <= Minutes(history.interval) {
      return NotHigher;
    }
    if Minutes(target) % Minutes(history.interval) != 0 {
      return NotMultiple;
    }
    var key := Buckets(Width(target));
    var order, buckets := GroupBars(history.bars, key);
    var keys := Sort(order, IntLeq);
    SortIsSortedPermutation(order, IntLeq);
    StrictlySorted(order, keys);
    var bars := [];
    for i := 0 to |keys|
      invariant |bars| == i
      invariant forall j | 0 <= j < i ::
                keys[j] in buckets && buckets[keys[j]] != [] && bars[j] == Candle(keys[j], buckets[keys[j]])
    {
      assert keys[i] in keys;
      bars := bars + [Candle(keys[i], buckets[keys[i]])];
    }
    SortedCandles(history.bars, order, buckets, keys, bars, key);
    BucketsNeverBack(Width(target));
    AggregateIsCandles(history.bars, key);
    CandlesUnique(bars, Aggregate(history.bars, key), history.bars, key);
    return Ok(PriceHistory(history.symbol, target, bars));
  }

  lemma StrictlySorted(order: seq<int>, keys: seq<int>)
    requires SortedBy(keys, IntLeq) && multiset(keys) == multiset(order)
    requires forall i, j | 0 <= i < j < |order| :: order[i] != order[j]
    ensures forall i, j | 0 <= i < j < |keys| :: keys[i] < keys[j]
  {
    DistinctCounts(order);
    forall i, j | 0 <= i < j < |keys|
      ensures keys[i] < keys[j]
    {
      assert IntLeq(keys[i], keys[j]);
      RepeatCounts(keys, i, j);
    }
  }

  lemma RepeatCounts(xs: seq<int>, i: nat, j: nat)
    requires i < j < |xs|
    ensures xs[i] == xs[j] ==> multiset(xs)[xs[i]] >= 2
  {
    assert xs == xs[..i] + [xs[i]] + xs[i + 1..j] + [xs[j]] + xs[j + 1..];
  }

  lemma SortedCandles(bars: seq<Bar>, order: seq<int>, buckets: map<int, seq<Bar>>, keys: seq<int>, out: seq<Bar>,
    key: int -> int)
    requires Grouped(order, buckets, bars, key)
    requires forall k :: k in keys <==> k in order
    requires forall i, j | 0 <= i < j < |keys| :: keys[i] < keys[j]
    requires |out| == |keys|
    requires forall j | 0 <= j < |keys| ::
             keys[j] in buckets && buckets[keys[j]] != [] && out[j] == Candle(keys[j], buckets[keys[j]])
    ensures Candles(out, bars, key)
  {
    forall b | b in bars
      ensures Covered(out, b, key)
    {
      var k: int := key(b.timestamp);
      assert k in buckets && k in order && k in keys;
      var j :| 0 <= j < |keys| && keys[j] == k;
      assert out[j] in out;
    }
  }
}
