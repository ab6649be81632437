/**
 The reference book: one sequence of resting orders in arrival order. Matching
 looks through the whole sequence for the best price and, among equals, for the
 earliest arrival. Its counters count, they do not wrap.
 */
module FlatBook {
  import opened Domain

  datatype RestingOrder = RestingOrder(
    id: U64, side: Octet, limitPrice: U64, original: U64, remaining: U64, arrival: U64)

  predicate Sound(o: RestingOrder) {
    && 0 < o.id && IsValidSide(o.side) && 0 < o.limitPrice
    && 0 < o.remaining <= o.original && 0 < o.arrival
  }

  datatype Book = Book(orders: seq<RestingOrder>, seen: set<U64>, arrivals: nat, issued: nat)

  const EMPTY := Book([], {}, 0, 0)

  // ---------- Price-time priority ----------

  /** Price `p` has priority over `q` among makers of `side`. */
  predicate Better(side: Octet, p: U64, q: U64) {
    if side == BUY then p > q else p < q
  }

  /** An incoming order may trade with a maker resting at `makerPrice`. */
  predicate Crosses(taker: NewLimitOrder, makerPrice: U64) {
    if taker.side == BUY then makerPrice <= taker.limitPrice else makerPrice >= taker.limitPrice
  }

  /** Order `i` is the best-priced order of `side`, and among equal prices the earliest one. */
  ghost predicate IsBest(os: seq<RestingOrder>, side: Octet, i: nat) {
    && i < |os| && os[i].side == side
    && (forall j :: 0 <= j < |os| && os[j].side == side ==> !Better(side, os[j].limitPrice, os[i].limitPrice))
    && (forall j :: 0 <= j < i && os[j].side == side ==> Better(side, os[i].limitPrice, os[j].limitPrice))
  }

  function BestIndex(os: seq<RestingOrder>, side: Octet): (r: Option<nat>)
    ensures r.Some? ==> r.value < |os| && IsBest(os, side, r.value)
    ensures r.None? ==> forall j :: 0 <= j < |os| ==> os[j].side != side
  {
    if os == [] then None
    else
      var last := |os| - 1;
      var r := BestIndex(os[..last], side);
      if os[last].side == side && (r.None? || Better(side, os[last].limitPrice, os[r.value].limitPrice))
      then Some(last)
      else r
  }

  // ---------- Orders at one price ----------

  /** The orders of one side at one price, in arrival order. */
  function At(os: seq<RestingOrder>, side: Octet, price: U64): seq<RestingOrder> {
    if os == [] then []
    else if os[0].side == side && os[0].limitPrice == price then [os[0]] + At(os[1..], side, price)
    else At(os[1..], side, price)
  }

  /** The quantity still open in a list of orders. */
  function Total(os: seq<RestingOrder>): nat {
    if os == [] then 0 else os[0].remaining + Total(os[1..])
  }

  // ---------- Matching ----------

  /** What is left of an order after `quantity` of it has traded: nothing, or one order. */
  function Leftover(o: RestingOrder, quantity: U64): seq<RestingOrder>
    requires quantity <= o.remaining
  {
    if o.remaining == quantity then [] else [o.(remaining := o.remaining - quantity)]
  }

  /** The book after `quantity` of order `i` has traded or been withdrawn. */
  function Execute(os: seq<RestingOrder>, i: nat, quantity: U64): seq<RestingOrder>
    requires i < |os| && quantity <= os[i].remaining
  {
    os[..i] + Leftover(os[i], quantity) + os[i + 1..]
  }

  datatype Fill = Fill(makerId: U64, price: U64, quantity: U64)

  datatype MatchOutcome = MatchOutcome(orders: seq<RestingOrder>, remaining: U64, fills: seq<Fill>)

  /** Some maker may trade with `taker`, which still wants `remaining`. */
  predicate CanTrade(os: seq<RestingOrder>, taker: NewLimitOrder, remaining: U64) {
    var best := BestIndex(os, Opposite(taker.side));
    && remaining > 0 && best.Some?
    && Crosses(taker, os[best.value].limitPrice) && os[best.value].remaining > 0
  }

  function Match(os: seq<RestingOrder>, taker: NewLimitOrder, remaining: U64): (r: MatchOutcome)
    ensures r.remaining <= remaining
    ensures !CanTrade(r.orders, taker, r.remaining)
    decreases remaining
  {
    if !CanTrade(os, taker, remaining) then MatchOutcome(os, remaining, [])
    else
      var i := BestIndex(os, Opposite(taker.side)).value;
      var quantity := Min(remaining, os[i].remaining);
      var rest := Match(Execute(os, i, quantity), taker, remaining - quantity);
      rest.(fills := [Fill(os[i].id, os[i].limitPrice, quantity)] + rest.fills)
  }

  /** The trades of a match: the ids continue where the last trade stopped. */
  function Number(fills: seq<Fill>, taker: U64, issued: nat): (r: seq<Trade>)
    requires issued + |fills| <= U64_MAX
    ensures |r| == |fills|
    ensures forall i :: 0 <= i < |r| ==>
                          r[i] == Trade(issued + i + 1, fills[i].makerId, taker, fills[i].price, fills[i].quantity)
  {
    seq(|fills|, i requires 0 <= i < |fills| =>
      Trade(issued + i + 1, fills[i].makerId, taker, fills[i].price, fills[i].quantity))
  }

  // ---------- Commands ----------

  function Defect(b: Book, o: NewLimitOrder): Option<RejectionReason> {
    if o.id == 0 then Some(InvalidOrderId)
    else if !IsValidSide(o.side) then Some(InvalidSide)
    else if o.limitPrice == 0 then Some(InvalidPrice)
    else if o.quantity == 0 then Some(InvalidQuantity)
    else if o.id in b.seen then Some(DuplicateOrderId)
    else None
  }

  /** Why the book cannot carry out the match `m` it would make for `o`. */
  function Shortage(b: Book, o: NewLimitOrder, m: MatchOutcome): Option<RejectionReason> {
    if b.issued + |m.fills| > U64_MAX then Some(TradeIdExhausted)
    else if m.remaining > 0 && b.arrivals >= U64_MAX then Some(SequenceExhausted)
    else if m.remaining > 0 && Total(At(b.orders, o.side, o.limitPrice)) + m.remaining > U64_MAX
    then Some(QuantityOverflow)
    else None
  }

  /** The remainder of an order joins the end of the arrival order. */
  function Remainder(b: Book, o: NewLimitOrder, remaining: U64): RestingOrder
    requires b.arrivals < U64_MAX
  {
    RestingOrder(o.id, o.side, o.limitPrice, o.quantity, remaining, b.arrivals + 1)
  }

  /** The book after the match `m` of order `o` has been carried out. */
  function Settled(b: Book, o: NewLimitOrder, m: MatchOutcome): Book
    requires Shortage(b, o, m).None?
  {
    if m.remaining > 0
    then Book(m.orders + [Remainder(b, o, m.remaining)], b.seen + {o.id}, b.arrivals + 1, b.issued + |m.fills|)
    else Book(m.orders, b.seen + {o.id}, b.arrivals, b.issued + |m.fills|)
  }

  function Acceptance(b: Book, o: NewLimitOrder, m: MatchOutcome): SubmitResult
    requires Shortage(b, o, m).None? && m.remaining <= o.quantity
  {
    SubmitResult(Accepted, None, o.quantity - m.remaining, m.remaining, Number(m.fills, o.id, b.issued))
  }

  function Submit(b: Book, o: NewLimitOrder): (r: (Book, SubmitResult))
    ensures r.1.status.Rejected? ==> r.0 == b && r.1.trades == []
    ensures r.1.status.Accepted? ==>
              && r.1.executedQuantity + r.1.restingQuantity == o.quantity
              && r.0.seen == b.seen + {o.id} && o.id !in b.seen && r.0.issued == b.issued + |r.1.trades|
  {
    var defect := Defect(b, o);
    if defect.Some? then (b, Rejection(defect.value))
    else
      var m := Match(b.orders, o, o.quantity);
      var shortage := Shortage(b, o, m);
      if shortage.Some? then (b, Rejection(shortage.value))
      else (Settled(b, o, m), Acceptance(b, o, m))
  }

  function IndexOf(os: seq<RestingOrder>, id: U64): (r: Option<nat>)
    ensures r.Some? ==> r.value < |os| && os[r.value].id == id
    ensures r.None? ==> forall j :: 0 <= j < |os| ==> os[j].id != id
  {
    if os == [] then None
    else if os[|os| - 1].id == id then Some(|os| - 1)
    else IndexOf(os[..|os| - 1], id)
  }

  function Cancel(b: Book, id: U64): (Book, CancelResult) {
    var i := IndexOf(b.orders, id);
    if i.None? then (b, CancelResult(NotFound, 0))
    else (b.(orders := Execute(b.orders, i.value, b.orders[i.value].remaining)),
          CancelResult(Cancelled, b.orders[i.value].remaining))
  }
}
