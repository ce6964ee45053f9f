/** Bars, intervals and price histories, with the rules their constructors enforce. */
module Market {

  datatype BarInterval = Min1 | Min5 | Min15 | Hour1 | Hour4 | Day1 | Week1

  function Minutes(interval: BarInterval): (m: int)
    ensures m > 0
  {
    match interval
    case Min1 => 1
    case Min5 => 5
    case Min15 => 15
    case Hour1 => 60
    case Hour4 => 240
    case Day1 => 1_440
    case Week1 => 10_080
  }

  /** Timestamps are microseconds since the UTC epoch, so a width is too. */
  const MICROS_PER_MINUTE := 60_000_000

  function Width(interval: BarInterval): (w: int)
    ensures w > 0
  {
    Minutes(interval) * MICROS_PER_MINUTE
  }

  datatype Bar = Bar(timestamp: int, open: real, high: real, low: real, close: real, volume: real)

  predicate ValidBar(b: Bar) {
    && b.open > 0.0 && b.high > 0.0 && b.low > 0.0 && b.close > 0.0 && b.volume >= 0.0
    && b.low <= b.open <= b.high && b.low <= b.close <= b.high
  }

  datatype PriceHistory = PriceHistory(symbol: string, interval: BarInterval, bars: seq<Bar>)

  predicate Ascending(bars: seq<Bar>) {
    forall i, j | 0 <= i < j < |bars| :: bars[i].timestamp < bars[j].timestamp
  }

  predicate ValidBars(bars: seq<Bar>) {
    Ascending(bars) && forall b | b in bars :: ValidBar(b)
  }

  predicate ValidHistory(h: PriceHistory) {
    ValidBars(h.bars)
  }
}
