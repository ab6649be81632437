/** The price-time limit order book. */
module OrderBook {
  import opened Domain
  import opened FlatBook
  import opened BookLaws
  import opened BookState
  import opened BookSimulation
  import opened Ladder
  import opened BookQueries

  // The largest value of the counter of previewed trades.
  predicate WouldOverflow(current: U64, addition: U64) {
    current > U64_MAX - addition
  }

  /** Walks one level: how much of `remaining` its orders leave open, and the trades counted so far. */
  method PreviewLevel(orders: seq<RestingOrder>, quantity: U64, open: U64, counted: nat)
    returns (remaining: U64, tradeCount: nat)
    requires AllOpen(orders)
    requires 0 < open && counted <= quantity - open
    ensures remaining == Absorb(orders, open).0
    ensures tradeCount == counted + Absorb(orders, open).1 <= quantity - remaining
  {
    remaining, tradeCount := open, counted;
    var k := 0;
    while k < |orders|
      invariant 0 <= k <= |orders| && tradeCount <= quantity - remaining
      invariant k < |orders| ==> remaining > 0
      invariant Absorb(orders, open).0 == Absorb(orders[k..], remaining).0
      invariant counted + Absorb(orders, open).1 == tradeCount + Absorb(orders[k..], remaining).1
    {
      if tradeCount == U64_MAX {
        assert false;
      }
      assert orders[k..][1..] == orders[k + 1..];
      remaining := remaining - Min(remaining, orders[k].remaining);
      tradeCount := tradeCount + 1;
      if remaining == 0 {
        return;
      }
      k := k + 1;
    }
  }

  lemma {:induction false} AbsorbConcat(a: seq<RestingOrder>, b: seq<RestingOrder>, remaining: U64)
    ensures var first := Absorb(a, remaining);
            var second := Absorb(b, first.0);
            Absorb(a + b, remaining) == (second.0, first.1 + second.1)
  {
    if a == [] {
      assert a + b == b;
    } else if remaining > 0 {
      assert (a + b)[1..] == a[1..] + b;
      AbsorbConcat(a[1..], b, remaining - Min(remaining, a[0].remaining));
    }
  }

  lemma PreviewGoesOn(levels: seq<PriceLevel>, l: nat, incoming: NewLimitOrder, remaining: U64)
    requires l < |levels| && Crosses(incoming, levels[l].price)
    ensures var first := Absorb(levels[l].orders, remaining);
            var second := Absorb(Makers(levels[l + 1..], incoming), first.0);
            Absorb(Makers(levels[l..], incoming), remaining) == (second.0, first.1 + second.1)
  {
    assert levels[l..][1..] == levels[l + 1..];
    AbsorbConcat(levels[l].orders, Makers(levels[l + 1..], incoming), remaining);
  }

  lemma PreviewEnds(levels: seq<PriceLevel>, l: nat, incoming: NewLimitOrder, remaining: U64)
    requires l <= |levels|
    requires l == |levels| || remaining == 0 || !Crosses(incoming, levels[l].price)
    ensures Absorb(Makers(levels[l..], incoming), remaining) == (remaining, 0)
  {
  }

  /** Walks the levels without changing them; `os` is the flat book they stand for. */
  method PreviewMatch(levels: seq<PriceLevel>, incoming: NewLimitOrder, ghost os: seq<RestingOrder>)
    returns (remaining: U64, tradeCount: nat)
    requires Refines(levels, Opposite(incoming.side), os)
    requires AllOpen(os)
    ensures remaining == Match(os, incoming, incoming.quantity).remaining
    ensures tradeCount == |Match(os, incoming, incoming.quantity).fills|
  {
    hide Refines, Match, Makers, Absorb;
    PreviewIsMatch(levels, os, incoming, incoming.quantity);
    remaining, tradeCount := incoming.quantity, 0;
    ghost var plan := Absorb(Makers(levels, incoming), incoming.quantity);
    assert levels[0..] == levels;
    var l := 0;
    while l < |levels| && remaining > 0 && Crosses(incoming, levels[l].price)
      invariant 0 <= l <= |levels| && tradeCount <= incoming.quantity - remaining
      invariant plan.0 == Absorb(Makers(levels[l..], incoming), remaining).0
      invariant plan.1 == tradeCount + Absorb(Makers(levels[l..], incoming), remaining).1
      decreases |levels| - l
    {
      PreviewGoesOn(levels, l, incoming, remaining);
      PositiveInLevel(levels, Opposite(incoming.side), os, l);
      remaining, tradeCount := PreviewLevel(levels[l].orders, incoming.quantity, remaining, tradeCount);
      l := l + 1;
    }
    PreviewEnds(levels, l, incoming, remaining);
  }

  lemma PositiveInLevel(levels: seq<PriceLevel>, side: Octet, os: seq<RestingOrder>, l: nat)
    requires Refines(levels, side, os) && AllOpen(os)
    requires l < |levels|
    ensures AllOpen(levels[l].orders)
  {
    forall k | 0 <= k < |levels[l].orders|
      ensures levels[l].orders[k].remaining > 0
    {
      var i := AtMember(os, side, levels[l].price, k);
    }
  }

  /** Takes `executed` off the first order of the best level; empty lists are erased. */
  method FillHead(levels: seq<PriceLevel>, executed: U64) returns (levels': seq<PriceLevel>)
    requires levels != [] && levels[0].orders != []
    requires executed <= levels[0].orders[0].remaining && executed <= levels[0].total
    ensures levels' == Patch(levels, 0, Reduced(levels[0], 0, executed))
  {
    var level := levels[0];
    var maker := level.orders[0];
    ghost var reduced := Execute(level.orders, 0, executed);
    level := level.(total := level.total - executed);
    if maker.remaining == executed {
      level := level.(orders := level.orders[1..]);
      assert level.orders == reduced;
      levels' := if level.orders == [] then levels[1..] else levels[0 := level];
    } else {
      maker := maker.(remaining := maker.remaining - executed);
      level := level.(orders := level.orders[0 := maker]);
      assert level.orders == reduced;
      levels' := levels[0 := level];
    }
  }

  /** Takes the order at place `rank` out of level `j`; an empty level is erased. */
  method EraseOrder(levels: seq<PriceLevel>, j: nat, rank: nat) returns (levels': seq<PriceLevel>)
    requires j < |levels| && rank < |levels[j].orders|
    requires levels[j].orders[rank].remaining <= levels[j].total
    ensures levels' == Patch(levels, j, Reduced(levels[j], rank, levels[j].orders[rank].remaining))
  {
    var level := levels[j];
    var cancelled := level.orders[rank].remaining;
    ghost var reduced := Execute(level.orders, rank, cancelled);
    level := PriceLevel(level.price, level.orders[..rank] + level.orders[rank + 1..], level.total - cancelled);
    assert level.orders == reduced;
    levels' := if level.orders == [] then levels[..j] + levels[j + 1..] else levels[j := level];
  }

  function ViewOf(o: RestingOrder): OrderView {
    OrderView(o.id, o.side, o.limitPrice, o.original, o.remaining)
  }

  /** The view shows the order, field by field. */
  predicate Shows(view: OrderView, o: RestingOrder) {
    && view.id == o.id && view.side == o.side && view.limitPrice == o.limitPrice
    && view.originalQuantity == o.original && view.remainingQuantity == o.remaining
  }

  lemma NoDepth(b: Book, side: Octet, maxLevels: nat)
    requires Valid(b) && (maxLevels == 0 || !IsValidSide(side))
    ensures IsDepth(b.orders, side, maxLevels, [])
  {
    forall i | 0 <= i < |b.orders| && b.orders[i].side == side
      ensures maxLevels == 0
    {
      assert Sound(b.orders[i]);
    }
  }

  class OrderBook {
    var bids: seq<PriceLevel>
    var asks: seq<PriceLevel>
    var activeOrders: map<U64, Locator>
    var seenOrderIds: set<U64>
    var nextArrivalSequence: U64
    var nextTradeId: U64
    // The flat book this object stands for.
    ghost var flat: Book

    ghost function Contents(): State
      reads this
    {
      State(bids, asks, activeOrders, seenOrderIds, nextArrivalSequence, nextTradeId)
    }

    ghost predicate Valid()
      reads this
    {
      Represents(Contents(), flat)
    }

    constructor ()
      ensures Valid() && flat == EMPTY
    {
      bids, asks, activeOrders, seenOrderIds := [], [], map[], {};
      nextArrivalSequence, nextTradeId := 1, 1;
      flat := EMPTY;
    }

    /** Counts up like the ids would; it agrees with one comparison. */
    method CanIssueTradeIds(tradeCount: nat) returns (ok: bool)
      ensures ok <==> tradeCount == 0 || (nextTradeId != 0 && tradeCount <= U64_MAX + 1 - nextTradeId)
    {
      var prospective := nextTradeId;
      for index := 0 to tradeCount
        invariant nextTradeId == 0 ==> index == 0
        invariant nextTradeId + index <= U64_MAX + 1
        invariant prospective == if nextTradeId + index == U64_MAX + 1 then 0 else nextTradeId + index
      {
        if prospective == 0 {
          return false;
        }
        prospective := Increment(prospective);
      }
      return true;
    }

    function LevelsOf(side: Octet): seq<PriceLevel>
      reads this
    {
      if side == BUY then bids else asks
    }

    /** One trade of an incoming order with the first maker of the best level. */
    method TradeWithBest(incoming: NewLimitOrder, remaining: U64) returns (trade: Trade)
      requires Valid() && IsValidSide(incoming.side) && flat.issued < U64_MAX
      requires LevelsOf(Opposite(incoming.side)) != [] && remaining > 0
      modifies this`bids, this`asks, this`activeOrders, this`nextTradeId, this`flat
      ensures Valid()
      ensures BestIndex(old(flat.orders), Opposite(incoming.side)).Some?
      ensures var maker := old(flat.orders)[BestIndex(old(flat.orders), Opposite(incoming.side)).value];
              && trade == Trade(old(flat.issued) + 1, maker.id, incoming.id, maker.limitPrice,
                                Min(remaining, maker.remaining))
              && flat == FlatTraded(old(flat), Opposite(incoming.side), trade.quantity)
              && trade.quantity > 0
              && maker.limitPrice == old(LevelsOf(Opposite(incoming.side)))[0].price
    {
      hide Represents, Execute, Patch, Reduced, BestIndex, IsBest;
      HasMaker(Contents(), flat, Opposite(incoming.side));
      var side := Opposite(incoming.side);
      var levels := LevelsOf(side);
      var level := levels[0];
      var maker := level.orders[0];
      var executed := Min(remaining, maker.remaining);
      TradeRefines(Contents(), flat, side, executed);
      ghost var traded := Traded(Contents(), side, executed);
      if executed == 0 || level.total < executed || nextTradeId == 0 {
        assert false;
      }
      trade := Trade(nextTradeId, maker.id, incoming.id, maker.limitPrice, executed);
      nextTradeId := Increment(nextTradeId);
      flat := FlatTraded(flat, side, executed);

      if maker.remaining == executed {
        if maker.id !in activeOrders {
          assert false;
        }
        activeOrders := activeOrders - {maker.id};
      }
      levels := FillHead(levels, executed);
      if side == BUY {
        bids := levels;
      } else {
        asks := levels;
      }
      assert Contents() == traded;
    }

    method Match(incoming: NewLimitOrder) returns (remaining: U64, trades: seq<Trade>)
      requires Valid() && IsValidSide(incoming.side)
      requires flat.issued + |FlatBook.Match(flat.orders, incoming, incoming.quantity).fills| <= U64_MAX
      modifies this`bids, this`asks, this`activeOrders, this`nextTradeId, this`flat
      ensures Valid()
      ensures var m := FlatBook.Match(old(flat.orders), incoming, incoming.quantity);
              && flat == old(flat).(orders := m.orders, issued := old(flat.issued) + |m.fills|)
              && remaining == m.remaining
              && trades == Number(m.fills, incoming.id, old(flat.issued))
    {
      hide Represents, FlatBook.Match, Number, Execute, CanTrade;
      remaining, trades := incoming.quantity, [];
      ghost var plan := FlatBook.Match(flat.orders, incoming, incoming.quantity);
      ghost var fills: seq<Fill> := [];
      while |LevelsOf(Opposite(incoming.side))| > 0 && remaining > 0
            && Crosses(incoming, LevelsOf(Opposite(incoming.side))[0].price)
        invariant Valid()
        invariant flat == old(flat).(orders := flat.orders, issued := old(flat.issued) + |fills|)
        invariant flat.issued <= U64_MAX && trades == Number(fills, incoming.id, old(flat.issued))
        invariant plan == Continued(fills, FlatBook.Match(flat.orders, incoming, remaining))
        decreases remaining
      {
        ghost var before := flat.orders;
        HeadCanTrade(Contents(), flat, incoming, remaining);
        MatchGoesOn(flat.orders, incoming, remaining);
        var trade := TradeWithBest(incoming, remaining);
        ghost var fill := Fill(trade.makerOrderId, trade.price, trade.quantity);
        MatchContinues(fills, fill, before, incoming, remaining);
        NumberContinues(fills, fill, incoming.id, old(flat.issued));
        fills := fills + [fill];
        trades := trades + [trade];
        remaining := remaining - trade.quantity;
      }
      HeadCanTrade(Contents(), flat, incoming, remaining);
      MatchEnds(fills, flat.orders, incoming, remaining);
    }

    /** Puts the remainder of an order at the end of its level and counts the arrival. */
    method InsertRestingOrder(incoming: NewLimitOrder, resting: U64)
      requires Valid() && flat.arrivals < U64_MAX
      requires var o := Remainder(flat, incoming, resting);
               && Fits(LevelsOf(incoming.side), o)
               && BookLaws.Valid(flat.(orders := flat.orders + [o], arrivals := flat.arrivals + 1))
      modifies this`bids, this`asks, this`activeOrders, this`nextArrivalSequence, this`flat
      ensures Valid()
      ensures flat == old(flat).(orders := old(flat.orders) + [Remainder(old(flat), incoming, resting)],
                                 arrivals := old(flat.arrivals) + 1)
    {
      hide Represents, LowerBound, BookLaws.Valid;
      ArrivalCounter(Contents(), flat);
      var side, price := incoming.side, incoming.limitPrice;
      var o := RestingOrder(incoming.id, side, price, incoming.quantity, resting, nextArrivalSequence);
      RestRefines(Contents(), flat, o);
      ghost var rested := Rested(Contents(), o);
      flat := flat.(orders := flat.orders + [o], arrivals := flat.arrivals + 1);

      var levels := LevelsOf(side);
      var j := LowerBound(levels, side, price);
      if !Finds(levels, j, price) {
        levels := levels[..j] + [PriceLevel(price, [], 0)] + levels[j..];
      }
      levels := levels[j := PriceLevel(price, levels[j].orders + [o], levels[j].total + resting)];
      JoinedBySteps(LevelsOf(side), o);
      activeOrders := activeOrders[o.id := Locator(side, price, nextArrivalSequence)];
      nextArrivalSequence := Increment(nextArrivalSequence);
      if side == BUY {
        bids := levels;
      } else {
        asks := levels;
      }
      assert Contents() == rested;
    }

    /** Every order is rejected with the book unchanged, or carried out completely. */
    method Submit(order: NewLimitOrder) returns (result: SubmitResult)
      requires Valid()
      modifies this
      ensures Valid()
      ensures (flat, result) == FlatBook.Submit(old(flat), order)
      ensures result.status.Rejected? ==> Contents() == old(Contents())
      ensures InvariantsHold(Contents())
    {
      hide InvariantsHold;
      InvariantsAlwaysHold(Contents(), flat);
      if order.id == 0 {
        return Rejection(InvalidOrderId);
      }
      if !IsValidSide(order.side) {
        return Rejection(InvalidSide);
      }
      if order.limitPrice == 0 {
        return Rejection(InvalidPrice);
      }
      if order.quantity == 0 {
        return Rejection(InvalidQuantity);
      }
      if order.id in seenOrderIds {
        return Rejection(DuplicateOrderId);
      }
      result := SubmitValid(order);
      InvariantsAlwaysHold(Contents(), flat);
    }

    method SubmitValid(order: NewLimitOrder) returns (result: SubmitResult)
      requires Valid() && Defect(flat, order).None?
      modifies this
      ensures Valid()
      ensures (flat, result) == FlatBook.Submit(old(flat), order)
      ensures result.status.Rejected? ==> Contents() == old(Contents())
    {
      hide Represents, FlatBook.Match, Refines, LowerBound, Total, At, BookLaws.Valid, Fits;
      ghost var m := FlatBook.Match(flat.orders, order, order.quantity);
      LevelsAreSound(Contents(), flat);
      var planRemaining, planTrades := PreviewMatch(LevelsOf(Opposite(order.side)), order, flat.orders);

      var canIssue := CanIssueTradeIds(planTrades);
      if !canIssue {
        return Rejection(TradeIdExhausted);
      }
      if planRemaining > 0 && nextArrivalSequence == 0 {
        return Rejection(SequenceExhausted);
      }
      if planRemaining > 0 {
        var levels := LevelsOf(order.side);
        var j := LowerBound(levels, order.side, order.limitPrice);
        LevelTotal(levels, order.side, flat.orders, order.limitPrice);
        if Finds(levels, j, order.limitPrice) && WouldOverflow(levels[j].total, planRemaining) {
          return Rejection(QuantityOverflow);
        }
      }
      assert Shortage(flat, order, m).None?;
      ghost var before := flat;

      SeenGrows(Contents(), flat, order.id);
      seenOrderIds := seenOrderIds + {order.id};
      flat := flat.(seen := flat.seen + {order.id});

      var remaining, trades := Match(order);
      assert remaining == planRemaining && |trades| == planTrades;

      if remaining > 0 {
        RoomToRest(Contents(), flat, before, order);
        InsertRestingOrder(order, remaining);
      }
      assert flat == Settled(before, order, m);
      result := SubmitResult(Accepted, None, order.quantity - planRemaining, planRemaining, trades);
    }

    /** Follows the locator of an active order and takes the order out of its level. */
    method CancelRestingOrder(locator: Locator, id: U64) returns (cancelled: U64)
      requires Valid() && id in activeOrders && locator == activeOrders[id]
      modifies this`bids, this`asks, this`activeOrders, this`flat
      ensures Valid()
      ensures (flat, CancelResult(Cancelled, cancelled)) == FlatBook.Cancel(old(flat), id)
    {
      hide Represents, LowerBound, NodeIndex, Rank, IndexOf, Execute, Patch, Reduced, Refines, BookLaws.Valid;
      ghost var level0, rank0 := LocatorLeadsToOrder(Contents(), flat, id);
      LevelsAreSound(Contents(), flat);
      WithdrawalRefines(Contents(), flat, id, level0, rank0);
      ghost var withdrawn := Withdrawn(Contents(), locator.side, level0, rank0);

      var levels := LevelsOf(locator.side);
      var j := LowerBound(levels, locator.side, locator.price);
      if !Finds(levels, j, locator.price) {
        assert false;
      }
      var level := levels[j];
      var place := NodeIndex(level.orders, locator.node);
      var rank := place.value;
      var order := level.orders[rank];
      if order.id != id || order.remaining == 0 || level.total < order.remaining {
        assert false;
      }
      cancelled := order.remaining;
      levels := EraseOrder(levels, j, rank);

      activeOrders := activeOrders - {id};
      if locator.side == BUY {
        bids := levels;
      } else {
        asks := levels;
      }
      flat := FlatBook.Cancel(flat, id).0;
      assert Contents() == withdrawn;
    }

    method Cancel(id: U64) returns (result: CancelResult)
      requires Valid()
      modifies this`bids, this`asks, this`activeOrders, this`flat
      ensures Valid()
      ensures (flat, result) == FlatBook.Cancel(old(flat), id)
      ensures InvariantsHold(Contents())
    {
      hide InvariantsHold;
      InvariantsAlwaysHold(Contents(), flat);
      hide Represents, IndexOf, LowerBound;
      ghost var j, rank := LocatorLeadsToOrder(Contents(), flat, id);
      if id !in activeOrders {
        return CancelResult(NotFound, 0);
      }
      var cancelled := CancelRestingOrder(activeOrders[id], id);
      InvariantsAlwaysHold(Contents(), flat);
      result := CancelResult(Cancelled, cancelled);
    }

    /** The best bid or the best ask. */
    method Best(side: Octet) returns (quote: Option<Quote>)
      requires Valid() && IsValidSide(side)
      ensures IsQuote(flat.orders, side, quote)
    {
      hide Represents;
      LevelsAreSound(Contents(), flat);
      var levels := LevelsOf(side);
      HeadIsBest(levels, side, flat.orders);
      if levels == [] {
        return None;
      }
      assert LevelOf(levels[0], side, flat.orders);
      return Some(Quote(levels[0].price, levels[0].total));
    }

    method Find(id: U64) returns (view: Option<OrderView>)
      requires Valid()
      ensures view.None? <==> forall k :: 0 <= k < |flat.orders| ==> flat.orders[k].id != id
      ensures view.Some? ==> exists k :: 0 <= k < |flat.orders| && flat.orders[k].id == id
                                         && Shows(view.value, flat.orders[k])
    {
      hide Represents, LowerBound, NodeIndex, Rank;
      ghost var j0, rank0 := LocatorLeadsToOrder(Contents(), flat, id);
      if id !in activeOrders {
        return None;
      }
      var locator := activeOrders[id];
      var levels := LevelsOf(locator.side);
      var j := LowerBound(levels, locator.side, locator.price);
      var rank := NodeIndex(levels[j].orders, locator.node).value;
      return Some(ViewOf(levels[j].orders[rank]));
    }

    method Depth(side: Octet, maxLevels: nat) returns (views: seq<PriceLevelView>)
      requires Valid()
      ensures IsDepth(flat.orders, side, maxLevels, views)
    {
      hide IsDepth;
      if maxLevels == 0 || !IsValidSide(side) {
        NoDepth(flat, side, maxLevels);
        return [];
      }
      hide Represents;
      LevelsAreSound(Contents(), flat);
      var levels := LevelsOf(side);
      views := [];
      for l := 0 to |levels|
        invariant l == |views| <= maxLevels
        invariant forall k :: 0 <= k < l ==>
                    views[k] == PriceLevelView(levels[k].price, levels[k].total, |levels[k].orders|)
      {
        if |views| == maxLevels {
          break;
        }
        views := views + [PriceLevelView(levels[l].price, levels[l].total, |levels[l].orders|)];
      }
      LadderDepth(levels, side, flat.orders, maxLevels, views);
    }

    method ActiveOrderCount() returns (count: nat)
      requires Valid()
      ensures count == |flat.orders|
    {
      CountOfIds(flat.orders, activeOrders.Keys);
      return |activeOrders.Keys|;
    }
  }

  /** The outcome of a match that has already made `fills`. */
  function Continued(fills: seq<Fill>, rest: MatchOutcome): MatchOutcome {
    rest.(fills := fills + rest.fills)
  }

  lemma MatchContinues(
    fills: seq<Fill>, fill: Fill, os: seq<RestingOrder>, incoming: NewLimitOrder, remaining: U64)
    requires CanTrade(os, incoming, remaining)
    requires var maker := os[BestIndex(os, Opposite(incoming.side)).value];
             fill == Fill(maker.id, maker.limitPrice, Min(remaining, maker.remaining))
    ensures Continued(fills, FlatBook.Match(os, incoming, remaining))
         == Continued(fills + [fill],
                      FlatBook.Match(Execute(os, BestIndex(os, Opposite(incoming.side)).value, fill.quantity),
                                     incoming, remaining - fill.quantity))
  {
  }

  lemma MatchGoesOn(os: seq<RestingOrder>, incoming: NewLimitOrder, remaining: U64)
    requires CanTrade(os, incoming, remaining)
    ensures |FlatBook.Match(os, incoming, remaining).fills| > 0
  {
  }

  lemma MatchEnds(fills: seq<Fill>, os: seq<RestingOrder>, incoming: NewLimitOrder, remaining: U64)
    requires !CanTrade(os, incoming, remaining)
    ensures Continued(fills, FlatBook.Match(os, incoming, remaining)) == MatchOutcome(os, remaining, fills)
  {
  }

  /** Creating an empty level if need be and then filling it is joining. */
  lemma JoinedBySteps(levels: seq<PriceLevel>, o: RestingOrder)
    requires Fits(levels, o)
    ensures var j := LowerBound(levels, o.side, o.limitPrice);
            var base := if Finds(levels, j, o.limitPrice) then levels
                          else levels[..j] + [PriceLevel(o.limitPrice, [], 0)] + levels[j..];
            && j < |base| && base[j].total + o.remaining <= U64_MAX
            && base[j := PriceLevel(o.limitPrice, base[j].orders + [o], base[j].total + o.remaining)]
               == Joined(levels, o)
  {
    hide LowerBound;
    var j := LowerBound(levels, o.side, o.limitPrice);
    if !Finds(levels, j, o.limitPrice) {
      var (empty, full) := (PriceLevel(o.limitPrice, [], 0), PriceLevel(o.limitPrice, [o], o.remaining));
      assert ([] + [o]) == [o];
      assert (levels[..j] + [empty] + levels[j..])[j := full] == levels[..j] + [full] + levels[j..];
    }
  }

  lemma NumberContinues(fills: seq<Fill>, fill: Fill, taker: U64, issued: nat)
    requires issued + |fills| + 1 <= U64_MAX
    ensures Number(fills + [fill], taker, issued)
         == Number(fills, taker, issued)
            + [Trade(issued + |fills| + 1, fill.makerId, taker, fill.price, fill.quantity)]
  {
  }

  lemma SeenGrows(s: State, b: Book, id: U64)
    requires Represents(s, b)
    ensures Represents(s.(seenOrderIds := s.seenOrderIds + {id}), b.(seen := b.seen + {id}))
  {
    hide Refines, Indexed, LevelsFit;
    var (s', b') := (s.(seenOrderIds := s.seenOrderIds + {id}), b.(seen := b.seen + {id}));
    assert Valid(b');
    assert BothRefine(s', b'.orders);
    assert Counted(s', b');
  }

  /** The overflow check made before matching still holds when the remainder is inserted. */
  lemma {:induction false} RoomToRest(s: State, b: Book, before: Book, order: NewLimitOrder)
    requires Represents(s, b) && Valid(before) && Defect(before, order).None?
    requires var m := FlatBook.Match(before.orders, order, order.quantity);
             && Shortage(before, order, m).None? && m.remaining > 0
             && b == Book(m.orders, before.seen + {order.id}, before.arrivals, before.issued + |m.fills|)
    ensures var m := FlatBook.Match(before.orders, order, order.quantity);
            && Fits(Levels(s, order.side), Remainder(b, order, m.remaining))
            && Valid(b.(orders := b.orders + [Remainder(b, order, m.remaining)], arrivals := b.arrivals + 1))
  {
    hide FlatBook.Match, LowerBound, Total, At, Valid;
    var m := FlatBook.Match(before.orders, order, order.quantity);
    MatchLeavesOwnSide(before.orders, order, order.quantity, order.limitPrice);
    LevelTotal(Levels(s, order.side), order.side, b.orders, order.limitPrice);
    SettledIsValid(before, order, m);
    assert Settled(before, order, m)
        == b.(orders := b.orders + [Remainder(b, order, m.remaining)], arrivals := b.arrivals + 1);
  }

  lemma ArrivalCounter(s: State, b: Book)
    requires Represents(s, b) && b.arrivals < U64_MAX
    ensures s.nextArrivalSequence == b.arrivals + 1
  {
  }

  lemma LevelsAreSound(s: State, b: Book)
    requires Represents(s, b)
    ensures Refines(s.bids, BUY, b.orders) && Refines(s.asks, SELL, b.orders)
    ensures AllOpen(b.orders)
    ensures Valid(b) && Counted(s, b)
  {
  }

  /** A level has a first maker, which is indexed and wants to trade; the counter can go on. */
  lemma HasMaker(s: State, b: Book, side: Octet)
    requires Represents(s, b) && IsValidSide(side) && Levels(s, side) != []
    ensures Levels(s, side)[0].orders != []
    ensures var maker := Levels(s, side)[0].orders[0]; maker.remaining > 0 && maker.id in s.activeOrders
    ensures b.issued < U64_MAX ==> s.nextTradeId == b.issued + 1
  {
    assert Refines(Levels(s, side), side, b.orders);
    HeadRefines(Levels(s, side), side, b.orders, 0);
    assert Sound(b.orders[BestIndex(b.orders, side).value]);
  }

  /** The loop condition over the levels is the condition of the flat match. */
  lemma HeadCanTrade(s: State, b: Book, incoming: NewLimitOrder, remaining: U64)
    requires Represents(s, b) && IsValidSide(incoming.side)
    ensures var levels := Levels(s, Opposite(incoming.side));
            CanTrade(b.orders, incoming, remaining)
            <==> levels != [] && remaining > 0 && Crosses(incoming, levels[0].price)
  {
    var side := Opposite(incoming.side);
    assert Refines(Levels(s, side), side, b.orders);
    HeadIsBest(Levels(s, side), side, b.orders);
    if Levels(s, side) != [] {
      assert Sound(b.orders[BestIndex(b.orders, side).value]);
    }
  }
}
