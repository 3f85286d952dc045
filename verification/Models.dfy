/** The values the pipeline passes around.

    Prices and sizes are exact decimals, kept as reals. Fill quantities and positions are integers in
    micro-units (the simulator rounds to six decimals), times are integers in microseconds.
 */
module Models {

  datatype Option<+T> = None | Some(value: T)

  type Symbol = string

  type FillId = string

  datatype Side = Buy | Sell

  /** The three kinds of anomaly the simulator plants, which are also the three kinds of break. */
  datatype BreakType = UnmatchedFill | PositionDrift | SequenceGap

  datatype Tick = Tick(symbol: Symbol, sequence: int, price: real, size: Option<real>, time: int)

  datatype Fill = Fill(
    fillId: FillId,
    orderId: nat,
    symbol: Symbol,
    sequence: int,
    price: real,
    quantity: int,
    side: Side,
    time: int,
    anomaly: Option<BreakType>)

  datatype Position = Position(
    symbol: Symbol,
    quantity: int,
    avgPrice: real,
    time: int,
    lastFillId: Option<FillId>)

  /** One row of the simulator's ground-truth log; `drift` is the amount its detail text prints. */
  datatype Planted = Planted(
    anomaly: BreakType,
    symbol: Symbol,
    plantedAt: int,
    relatedFillId: Option<FillId>,
    drift: int,
    relatedSequences: Option<(int, int)>)

  /** The numbers that a break's detail text prints. */
  datatype Detail =
    | NoTickWithin(window: int)
    | RecordedVersusExpected(recorded: int, expected: int)
    | MissingBetween(prev: int, curr: int)

  datatype Break = Break(
    breakType: BreakType,
    symbol: Symbol,
    detectedAt: int,
    detail: Detail,
    relatedFillId: Option<FillId>,
    relatedSequence: Option<int>)

  function Abs(x: int): nat {
    if x < 0 then -x else x
  }

  function Min(x: int, y: int): int {
    if x <= y then x else y
  }
}
