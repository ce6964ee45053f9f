/** Directions and swing points shared by the analysis modules. */
module Signals {
  datatype Direction = Bullish | Bearish | Neutral

  datatype SwingKind = High | Low

  datatype SwingPoint = SwingPoint(kind: SwingKind, index: int, timestamp: int, price: real)
}
