/** The values shared by the order book, the journal and the network pipeline. */
module Domain {
  const U64_MAX: int := 0xFFFF_FFFF_FFFF_FFFF

  type U64 = x: int | 0 <= x <= 0xFFFF_FFFF_FFFF_FFFF
  type Octet = x: int | 0 <= x < 256

  datatype Option<+T> = None | Some(value: T)

  /** `++x` on a 64-bit unsigned counter: it wraps to 0 after the last value. */
  function Increment(x: U64): U64 {
    if x == U64_MAX then 0 else x + 1
  }

  function Min(a: int, b: int): int {
    if a <= b then a else b
  }

  // A side is one octet: the wire and the journal carry every value of it, and
  // only the order book decides that anything else than these two is invalid.
  const BUY: Octet := 0
  const SELL: Octet := 1

  predicate IsValidSide(side: Octet) {
    side == BUY || side == SELL
  }

  function Opposite(side: Octet): Octet {
    if side == BUY then SELL else BUY
  }

  datatype NewLimitOrder = NewLimitOrder(id: U64, side: Octet, limitPrice: U64, quantity: U64)

  datatype Trade = Trade(id: U64, makerOrderId: U64, takerOrderId: U64, price: U64, quantity: U64)

  datatype RejectionReason =
    | InvalidOrderId
    | InvalidSide
    | InvalidPrice
    | InvalidQuantity
    | DuplicateOrderId
    | QuantityOverflow
    | SequenceExhausted
    | TradeIdExhausted

  datatype SubmissionStatus = Accepted | Rejected

  datatype SubmitResult = SubmitResult(
    status: SubmissionStatus,
    rejectionReason: Option<RejectionReason>,
    executedQuantity: U64,
    restingQuantity: U64,
    trades: seq<Trade>)

  datatype CancelStatus = Cancelled | NotFound

  datatype CancelResult = CancelResult(status: CancelStatus, cancelledQuantity: U64)

  datatype Command = SubmitLimitOrder(order: NewLimitOrder) | CancelOrder(orderId: U64)

  datatype CommandResult = SubmitDone(submit: SubmitResult) | CancelDone(cancel: CancelResult)

  datatype Quote = Quote(price: U64, quantity: U64)

  datatype PriceLevelView = PriceLevelView(price: U64, totalQuantity: U64, orderCount: nat)

  datatype OrderView = OrderView(
    id: U64, side: Octet, limitPrice: U64, originalQuantity: U64, remainingQuantity: U64)

  function Rejection(reason: RejectionReason): SubmitResult {
    SubmitResult(Rejected, Some(reason), 0, 0, [])
  }
}
