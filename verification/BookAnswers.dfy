/** What the book answers to every command, in terms of the orders and the results before it. */
module BookAnswers {
  import opened Domain
  import opened FlatBook
  import opened BookLaws
  import opened BookRuns

  // ---------- Trades ----------

  /** A buyer pays at most their limit and a seller gets at least theirs. */
  predicate WithinLimit(o: NewLimitOrder, price: U64) {
    && (o.side == BUY ==> price <= o.limitPrice)
    && (o.side == SELL ==> price >= o.limitPrice)
  }

  /**
   Trade `k` of an order: its taker is the order and its maker an order of the other side at its own
   price, within the taker's limit, of which it takes no more than is open. Whoever was ahead of that
   maker, by price or by arrival at the same price, has been filled completely by an earlier trade.
   */
  ghost predicate FairTrade(os: seq<RestingOrder>, o: NewLimitOrder, trades: seq<Trade>, k: nat, maker: RestingOrder)
    requires k < |trades|
  {
    var t := trades[k];
    && maker in os && maker.side != o.side && IsValidSide(maker.side)
    && t.takerOrderId == o.id && t.makerOrderId == maker.id
    && t.price == maker.limitPrice && WithinLimit(o, t.price)
    && 0 < t.quantity <= maker.remaining
    && forall other :: other in os && other.side == maker.side && Ahead(other, maker) ==>
                         FilledBefore(trades, k, other)
  }

  /** A trade before trade `k` has taken everything that was open of `other`. */
  ghost predicate FilledBefore(trades: seq<Trade>, k: nat, other: RestingOrder) {
    exists j :: 0 <= j < k <= |trades| && trades[j].makerOrderId == other.id && trades[j].quantity == other.remaining
  }

  lemma NumberedFill(fills: seq<Fill>, taker: U64, issued: nat, k: nat, other: RestingOrder)
    requires issued + |fills| <= U64_MAX && k <= |fills|
    requires Fill(other.id, other.limitPrice, other.remaining) in fills[..k]
    ensures FilledBefore(Number(fills, taker, issued), k, other)
  {
    var j :| 0 <= j < k && fills[j] == Fill(other.id, other.limitPrice, other.remaining);
    assert Number(fills, taker, issued)[j].makerOrderId == other.id;
  }

  lemma {:induction false} EveryTradeIsFair(b: Book, o: NewLimitOrder, k: nat) returns (maker: RestingOrder)
    requires Valid(b) && k < |Submit(b, o).1.trades|
    ensures FairTrade(b.orders, o, Submit(b, o).1.trades, k, maker)
  {
    hide Match, Ahead, FilledBefore;
    var m := Match(b.orders, o, o.quantity);
    maker := NobodyIsPassedOver(b.orders, o, o.quantity, k);
    forall other | other in b.orders && other.side == maker.side && Ahead(other, maker)
      ensures FilledBefore(Submit(b, o).1.trades, k, other)
    {
      NumberedFill(m.fills, o.id, b.issued, k, other);
    }
  }

  /** The same over every run: the trades of every result are fair in the book the commands before it have left. */
  lemma {:induction false} EveryTradeOfARunIsFair(cs: seq<Command>, i: nat, k: nat) returns (maker: RestingOrder)
    requires i < |cs| && k < |TradesOf(Run(EMPTY, cs).1[i])|
    ensures cs[i].SubmitLimitOrder?
    ensures FairTrade(Run(EMPTY, cs[..i]).0.orders, cs[i].order, TradesOf(Run(EMPTY, cs).1[i]), k, maker)
  {
    hide Run, Submit, FairTrade;
    RunResult(EMPTY, cs, i);
    RunKeepsValid(EMPTY, cs[..i]);
    maker := EveryTradeIsFair(Run(EMPTY, cs[..i]).0, cs[i].order, k);
  }

  // ---------- What an order can get ----------

  /** What the other side offers within the limit of `o`. */
  function Offered(os: seq<RestingOrder>, o: NewLimitOrder): nat {
    if os == [] then 0
    else (if os[0].side == Opposite(o.side) && WithinLimit(o, os[0].limitPrice) then os[0].remaining else 0)
         + Offered(os[1..], o)
  }

  lemma {:induction false} OfferedConcat(a: seq<RestingOrder>, b: seq<RestingOrder>, o: NewLimitOrder)
    ensures Offered(a + b, o) == Offered(a, o) + Offered(b, o)
  {
    if a == [] {
      assert a + b == b;
    } else {
      assert (a + b)[1..] == a[1..] + b;
      OfferedConcat(a[1..], b, o);
    }
  }

  lemma OfferedAfterExecute(os: seq<RestingOrder>, i: nat, quantity: U64, o: NewLimitOrder)
    requires i < |os| && quantity <= os[i].remaining
    requires os[i].side == Opposite(o.side) && WithinLimit(o, os[i].limitPrice)
    ensures Offered(Execute(os, i, quantity), o) == Offered(os, o) - quantity
  {
    hide WithinLimit;
    var rest := Leftover(os[i], quantity);
    Around(os, i);
    OfferedConcat(os[..i] + [os[i]], os[i + 1..], o);
    OfferedConcat(os[..i], [os[i]], o);
    OfferedConcat(os[..i] + rest, os[i + 1..], o);
    OfferedConcat(os[..i], rest, o);
  }

  lemma {:induction false} NothingOffered(os: seq<RestingOrder>, o: NewLimitOrder)
    requires forall k :: 0 <= k < |os| && os[k].side == Opposite(o.side) ==> !WithinLimit(o, os[k].limitPrice)
    ensures Offered(os, o) == 0
  {
    if os != [] {
      NothingOffered(os[1..], o);
    }
  }

  /** If the best maker does not trade, nobody of the other side is within the limit. */
  lemma NoTradeMeansNoOffer(os: seq<RestingOrder>, o: NewLimitOrder, remaining: U64)
    requires AllOpen(os) && IsValidSide(o.side) && remaining > 0 && !CanTrade(os, o, remaining)
    ensures Offered(os, o) == 0
  {
    NothingOffered(os, o);
  }

  /** Matching takes what is offered, and no more than is wanted. */
  lemma {:induction false} MatchTakesOffer(os: seq<RestingOrder>, o: NewLimitOrder, remaining: U64)
    requires AllOpen(os) && IsValidSide(o.side)
    ensures Match(os, o, remaining).remaining == remaining - Min(remaining, Offered(os, o))
    decreases remaining
  {
    hide IsBest, Better, Execute, AllOpen, Offered;
    if CanTrade(os, o, remaining) {
      var i := BestIndex(os, Opposite(o.side)).value;
      var quantity := Min(remaining, os[i].remaining);
      BestIsOfSide(os, Opposite(o.side));
      ExecuteLeavesOpen(os, i, quantity);
      OfferedAfterExecute(os, i, quantity, o);
      MatchTakesOffer(Execute(os, i, quantity), o, remaining - quantity);
    } else if remaining > 0 {
      NoTradeMeansNoOffer(os, o, remaining);
    }
  }

  // ---------- What rests at a price, and what ever rested ----------

  /** What is open at one price of one side. */
  function OpenAt(os: seq<RestingOrder>, side: Octet, price: U64): nat {
    if os == [] then 0
    else (if os[0].side == side && os[0].limitPrice == price then os[0].remaining else 0) + OpenAt(os[1..], side, price)
  }

  lemma {:induction false} OpenAtIsTotal(os: seq<RestingOrder>, side: Octet, price: U64)
    ensures OpenAt(os, side, price) == Total(At(os, side, price))
  {
    if os != [] {
      OpenAtIsTotal(os[1..], side, price);
      assert os == [os[0]] + os[1..];
      AtConcat([os[0]], os[1..], side, price);
      TotalConcat(At([os[0]], side, price), At(os[1..], side, price));
    }
  }

  predicate Rests(r: CommandResult) {
    r.SubmitDone? && r.submit.restingQuantity > 0
  }

  /** How many of the orders came to rest. */
  function Arrivals(rs: seq<CommandResult>): nat {
    if rs == [] then 0 else Arrivals(rs[..|rs| - 1]) + if Rests(rs[|rs| - 1]) then 1 else 0
  }

  lemma ApplyCountsArrivals(b: Book, c: Command)
    ensures Apply(b, c).0.arrivals == b.arrivals + if Rests(Apply(b, c).1) then 1 else 0
  {
    hide Match;
  }

  /** The arrival counter counts the orders that came to rest. */
  lemma {:induction false} RunCountsArrivals(cs: seq<Command>)
    ensures Run(EMPTY, cs).0.arrivals == Arrivals(Run(EMPTY, cs).1)
  {
    if cs != [] {
      RunCountsArrivals(cs[..|cs| - 1]);
      ApplyCountsArrivals(Run(EMPTY, cs[..|cs| - 1]).0, cs[|cs| - 1]);
      assert Run(EMPTY, cs).1[..|cs| - 1] == Run(EMPTY, cs[..|cs| - 1]).1;
    }
  }

  // ---------- Every answer to an order ----------

  predicate ValidFields(o: NewLimitOrder) {
    o.id != 0 && (o.side == BUY || o.side == SELL) && o.limitPrice != 0 && o.quantity != 0
  }

  /** The answers to malformed orders: the first bad field is named. */
  lemma {:induction false} FieldAnswers(b: Book, o: NewLimitOrder)
    ensures var reason := Submit(b, o).1.rejectionReason;
            && (reason == Some(InvalidOrderId) <==> o.id == 0)
            && (reason == Some(InvalidSide) <==> o.id != 0 && o.side != 0 && o.side != 1)
            && (reason == Some(InvalidPrice) <==> o.id != 0 && (o.side == 0 || o.side == 1) && o.limitPrice == 0)
            && (reason == Some(InvalidQuantity) <==>
                  o.id != 0 && (o.side == 0 || o.side == 1) && o.limitPrice != 0 && o.quantity == 0)
  {
    hide Match;
  }

  /** An answer is a rejection with a reason and nothing else, or an acceptance without one. */
  lemma {:induction false} AnswerShape(b: Book, o: NewLimitOrder)
    ensures var r := Submit(b, o).1;
            && (r.status == Accepted <==> r.rejectionReason == None)
            && (r.status == Rejected ==> r.executedQuantity == 0 && r.restingQuantity == 0 && r.trades == [])
            && (r.status == Rejected ==> Submit(b, o).0 == b)
  {
    hide Match;
  }

  /**
   The answer to a well-formed order after any run. It is a duplicate exactly if its id was accepted
   before; otherwise it lacks trade ids exactly if the trades made so far and its own exceed 2^64-1;
   otherwise, if the other side does not offer all of it, it lacks an arrival number exactly if
   2^64-1 orders have come to rest, and else overflows its level exactly if what is open there and its
   rest exceed 2^64-1. In all other cases it is accepted, executed as far as it is offered, and rests.
   */
  lemma {:induction false} OrderAnswers(cs: seq<Command>, o: NewLimitOrder)
    requires ValidFields(o)
    ensures var (b, rs) := Run(EMPTY, cs);
            var r := Submit(b, o).1;
            var executed := Min(o.quantity, Offered(b.orders, o));
            var rest := o.quantity - executed;
            var duplicate := WasAccepted(cs, rs, o.id);
            var noTradeIds := |AllTrades(rs)| + |Match(b.orders, o, o.quantity).fills| > U64_MAX;
            var noArrival := rest > 0 && Arrivals(rs) == U64_MAX;
            var overflow := rest > 0 && OpenAt(b.orders, o.side, o.limitPrice) + rest > U64_MAX;
            && (r.rejectionReason == Some(DuplicateOrderId) <==> duplicate)
            && (r.rejectionReason == Some(TradeIdExhausted) <==> !duplicate && noTradeIds)
            && (r.rejectionReason == Some(SequenceExhausted) <==> !duplicate && !noTradeIds && noArrival)
            && (r.rejectionReason == Some(QuantityOverflow) <==> !duplicate && !noTradeIds && !noArrival && overflow)
            && (r.status == Accepted <==> !duplicate && !noTradeIds && !noArrival && !overflow)
            && (r.status == Accepted ==> r.executedQuantity == executed && r.restingQuantity == rest)
  {
    hide Run, Match, AllTrades, WasAccepted, Arrivals, OpenAt, Offered, At, Total, ValidOrders;
    var b := Run(EMPTY, cs).0;
    SeenIsAccepted(cs, o.id);
    RunNumbersTrades(EMPTY, cs);
    RunCountsArrivals(cs);
    RunLeavesOpen(cs);
    MatchTakesOffer(b.orders, o, o.quantity);
    OpenAtIsTotal(b.orders, o.side, o.limitPrice);
  }

  lemma RunLeavesOpen(cs: seq<Command>)
    ensures var b := Run(EMPTY, cs).0; AllOpen(b.orders) && b.arrivals <= U64_MAX
  {
    hide Run;
    RunKeepsValid(EMPTY, cs);
  }

  // ---------- Every answer to a cancellation ----------

  /** A resting order is withdrawn with what is open of it and it alone leaves the book; no other id is found. */
  lemma {:induction false} CancelAnswers(b: Book, id: U64)
    requires Valid(b)
    ensures var (b', r) := Cancel(b, id);
            && (r.status == Cancelled <==> exists k :: 0 <= k < |b.orders| && b.orders[k].id == id)
            && (r.status == NotFound ==> r.cancelledQuantity == 0 && b' == b)
            && (forall k :: 0 <= k < |b.orders| && b.orders[k].id == id ==>
                  && r.cancelledQuantity == b.orders[k].remaining
                  && b' == b.(orders := b.orders[..k] + b.orders[k + 1..]))
  {
    hide LevelsFit, Uncrossed, ArrivalOrdered;
    var i := IndexOf(b.orders, id);
    if i.Some? {
      forall k | 0 <= k < |b.orders| && b.orders[k].id == id
        ensures k == i.value
      {
      }
      assert b.orders[..i.value] + [] == b.orders[..i.value];
    }
  }

  /**
   After any run an id is found exactly if more was accepted for it than has been traded and
   withdrawn since, and the difference is what is cancelled.
   */
  lemma {:induction false} CancelAnswersOverRuns(cs: seq<Command>, id: U64)
    ensures var (b, rs) := Run(EMPTY, cs);
            var r := Cancel(b, id).1;
            var gone := Involving(AllTrades(rs), Some(id)) + WithdrawnIn(cs, rs, Some(id));
            var left := AcceptedIn(cs, rs, Some(id)) - gone;
            && (r.status == Cancelled <==> left > 0)
            && (r.status == NotFound <==> left == 0)
            && r.cancelledQuantity == left
  {
    hide Run, AcceptedIn, WithdrawnIn, Involving, AllTrades, ValidOrders;
    var b := Run(EMPTY, cs).0;
    RunConserves(EMPTY, cs, Some(id));
    RunKeepsValid(EMPTY, cs);
    OpenOfId(b, id);
  }

  lemma OpenOfId(b: Book, id: U64)
    requires Valid(b)
    ensures var i := IndexOf(b.orders, id);
            && Open(b.orders, Some(id)) == (if i.None? then 0 else b.orders[i.value].remaining)
            && (i.Some? ==> b.orders[i.value].remaining > 0)
  {
    hide LevelsFit, Uncrossed, ArrivalOrdered;
    var i := IndexOf(b.orders, id);
    if i.Some? {
      OpenOfOne(b.orders, i.value);
    } else {
      OpenOfNone(b.orders, id);
    }
  }
}
