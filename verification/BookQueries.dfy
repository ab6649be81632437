/** What the queries of the book and its self-check mean. */
module BookQueries {
  import opened Domain
  import opened FlatBook
  import opened BookLaws
  import opened BookState
  import opened BookSimulation
  import opened Ladder

  /** The best quote of a side: its best price and everything open there. */
  ghost predicate IsQuote(os: seq<RestingOrder>, side: Octet, quote: Option<Quote>) {
    match BestIndex(os, side)
    case None => quote.None?
    case Some(i) =>
      && quote.Some? && quote.value.price == os[i].limitPrice
      && quote.value.quantity == Total(At(os, side, os[i].limitPrice))
  }

  ghost predicate Viewed(views: seq<PriceLevelView>, price: U64) {
    exists k :: 0 <= k < |views| && views[k].price == price
  }

  /** `views` are the best levels of a side, best first, at most `max` of them, and none is skipped. */
  ghost predicate IsDepth(os: seq<RestingOrder>, side: Octet, max: nat, views: seq<PriceLevelView>) {
    && |views| <= max
    && (forall i, j :: 0 <= i < j < |views| ==> Better(side, views[i].price, views[j].price))
    && (forall k :: 0 <= k < |views| ==> IsView(os, side, views[k]))
    && (forall i :: 0 <= i < |os| && os[i].side == side && !Viewed(views, os[i].limitPrice) ==>
          |views| == max && forall k :: 0 <= k < |views| ==> Better(side, views[k].price, os[i].limitPrice))
  }

  ghost predicate IsView(os: seq<RestingOrder>, side: Octet, view: PriceLevelView) {
    var orders := At(os, side, view.price);
    0 < view.orderCount == |orders| && view.totalQuantity == Total(orders)
  }

  lemma {:induction false} DepthsAgree(
    os: seq<RestingOrder>, side: Octet, max: nat, a: seq<PriceLevelView>, b: seq<PriceLevelView>, n: nat)
    requires IsDepth(os, side, max, a) && IsDepth(os, side, max, b) && n <= |a| && n <= |b|
    ensures forall k :: 0 <= k < n ==> a[k] == b[k]
  {
    if n > 0 {
      DepthsAgree(os, side, max, a, b, n - 1);
      var p, q := a[n - 1].price, b[n - 1].price;
      assert IsView(os, side, a[n - 1]) && IsView(os, side, b[n - 1]);
      if Better(side, p, q) {
        PriceIsViewed(os, side, max, b, p, n - 1);
      } else if Better(side, q, p) {
        PriceIsViewed(os, side, max, a, q, n - 1);
      }
    }
  }

  lemma DepthIsNotShorter(
    os: seq<RestingOrder>, side: Octet, max: nat, a: seq<PriceLevelView>, b: seq<PriceLevelView>)
    requires IsDepth(os, side, max, a) && IsDepth(os, side, max, b)
    ensures |a| >= |b|
  {
    if |a| < |b| {
      DepthsAgree(os, side, max, a, b, |a|);
      assert IsView(os, side, b[|a|]);
      var i := AtHasMember(os, side, b[|a|].price);
    }
  }

  /** That leaves no choice: two answers to the same query are the same. */
  lemma {:induction false} DepthIsUnique(
    os: seq<RestingOrder>, side: Octet, max: nat, a: seq<PriceLevelView>, b: seq<PriceLevelView>)
    requires IsDepth(os, side, max, a) && IsDepth(os, side, max, b)
    ensures a == b
  {
    DepthIsNotShorter(os, side, max, a, b);
    DepthIsNotShorter(os, side, max, b, a);
    DepthsAgree(os, side, max, a, b, |a|);
  }

  /** A price better than view `n` has an order, so it is among the first `n` views. */
  lemma PriceIsViewed(
    os: seq<RestingOrder>, side: Octet, max: nat, views: seq<PriceLevelView>, price: U64, n: nat)
    requires IsDepth(os, side, max, views) && At(os, side, price) != [] && n < |views|
    requires Better(side, price, views[n].price)
    ensures exists k :: 0 <= k < n && views[k].price == price
  {
    var i := AtHasMember(os, side, price);
    assert Viewed(views, price);
  }

  /** The views of the first levels of a ladder answer the depth query. */
  lemma {:induction false} LadderDepth(
    levels: seq<PriceLevel>, side: Octet, os: seq<RestingOrder>, max: nat, views: seq<PriceLevelView>)
    requires Refines(levels, side, os) && |views| == Min(max, |levels|)
    requires forall k :: 0 <= k < |views| ==>
                           views[k] == PriceLevelView(levels[k].price, levels[k].total, |levels[k].orders|)
    ensures IsDepth(os, side, max, views)
  {
    forall k | 0 <= k < |views|
      ensures IsView(os, side, views[k])
    {
      assert LevelOf(levels[k], side, os);
    }
    forall i | 0 <= i < |os| && os[i].side == side
      ensures || Viewed(views, os[i].limitPrice)
              || (|views| == max && forall k :: 0 <= k < |views| ==> Better(side, views[k].price, os[i].limitPrice))
    {
      var n :| 0 <= n < |levels| && levels[n].price == os[i].limitPrice;
      if n < |views| {
        assert views[n].price == os[i].limitPrice;
      }
    }
  }

  lemma {:induction false} CountOfIds(os: seq<RestingOrder>, ids: set<U64>)
    requires DistinctIds(os)
    requires forall k :: 0 <= k < |os| ==> os[k].id in ids
    requires forall id :: id in ids ==> exists k :: 0 <= k < |os| && os[k].id == id
    ensures |ids| == |os|
  {
    if os == [] {
      assert ids == {};
    } else {
      var front, last := os[..|os| - 1], os[|os| - 1];
      forall id | id in ids - {last.id}
        ensures exists k :: 0 <= k < |front| && front[k].id == id
      {
        var k :| 0 <= k < |os| && os[k].id == id;
        assert front[k].id == id;
      }
      CountOfIds(front, ids - {last.id});
    }
  }

  // ---------- The self-check of the book ----------

  ghost predicate OrderChecks(s: State, side: Octet, price: U64, o: RestingOrder) {
    && o.side == side && o.limitPrice == price
    && o.remaining != 0 && o.original != 0 && o.remaining <= o.original && o.arrival != 0
    && o.id in s.activeOrders && s.activeOrders[o.id] == Locator(side, price, o.arrival)
    && o.id in s.seenOrderIds
  }

  ghost predicate LevelChecks(s: State, side: Octet, level: PriceLevel) {
    && level.orders != []
    && (forall k :: 0 <= k < |level.orders| ==> OrderChecks(s, side, level.price, level.orders[k]))
    && (forall i, j :: 0 <= i < j < |level.orders| ==> level.orders[i].arrival < level.orders[j].arrival)
    && level.total == Total(level.orders)
  }

  ghost predicate SideChecks(s: State, side: Octet) {
    var levels := Levels(s, side);
    && (forall i, j :: 0 <= i < j < |levels| ==> Better(side, levels[i].price, levels[j].price))
    && (forall k :: 0 <= k < |levels| ==> LevelChecks(s, side, levels[k]))
  }

  function IdsOf(os: seq<RestingOrder>): set<U64> {
    set o | o in os :: o.id
  }

  function IdsIn(levels: seq<PriceLevel>): set<U64> {
    if levels == [] then {} else IdsOf(levels[0].orders) + IdsIn(levels[1..])
  }

  function CountIn(levels: seq<PriceLevel>): nat {
    if levels == [] then 0 else |levels[0].orders| + CountIn(levels[1..])
  }

  /** The self-check: uncrossed, sorted, no empty level, right totals, and an index that is a bijection. */
  ghost predicate InvariantsHold(s: State) {
    && (s.bids != [] && s.asks != [] ==> s.bids[0].price < s.asks[0].price)
    && SideChecks(s, BUY) && SideChecks(s, SELL)
    && |IdsIn(s.bids) + IdsIn(s.asks)| == CountIn(s.bids) + CountIn(s.asks) == |s.activeOrders|
  }

  lemma {:induction false} AtDistinctIds(os: seq<RestingOrder>, side: Octet, price: U64)
    requires DistinctIds(os)
    ensures DistinctIds(At(os, side, price))
  {
    if os != [] {
      AtDistinctIds(os[1..], side, price);
      forall n | 0 <= n < |At(os[1..], side, price)|
        ensures os[0].id != At(os[1..], side, price)[n].id
      {
        var k := AtMember(os[1..], side, price, n);
      }
    }
  }

  /** Some levels of a ladder, in their order. */
  ghost predicate SomeLevels(levels: seq<PriceLevel>, side: Octet, os: seq<RestingOrder>) {
    Sorted(levels, side) && forall i :: 0 <= i < |levels| ==> LevelOf(levels[i], side, os)
  }

  lemma {:induction false} AtPrice(os: seq<RestingOrder>, side: Octet, price: U64, n: nat)
    requires n < |At(os, side, price)|
    ensures At(os, side, price)[n].side == side && At(os, side, price)[n].limitPrice == price
  {
    if os[0].side == side && os[0].limitPrice == price {
      if n > 0 {
        AtPrice(os[1..], side, price, n - 1);
      }
    } else {
      AtPrice(os[1..], side, price, n);
    }
  }

  /** The ids of the orders of a side at one price. */
  function IdsAt(os: seq<RestingOrder>, side: Octet, price: U64): set<U64> {
    set k | 0 <= k < |os| && os[k].side == side && os[k].limitPrice == price :: os[k].id
  }

  /** The ids of the orders of a side at the prices of some levels. */
  ghost function IdsAtAny(os: seq<RestingOrder>, side: Octet, levels: seq<PriceLevel>): set<U64> {
    set k | 0 <= k < |os| && os[k].side == side && HasLevel(levels, os[k].limitPrice) :: os[k].id
  }

  lemma IdsOfLevel(level: PriceLevel, side: Octet, os: seq<RestingOrder>)
    requires LevelOf(level, side, os) && DistinctIds(os)
    ensures |IdsOf(level.orders)| == |level.orders|
    ensures IdsOf(level.orders) == IdsAt(os, side, level.price)
  {
    AtDistinctIds(os, side, level.price);
    CountOfIds(level.orders, IdsOf(level.orders));
    forall id | id in IdsOf(level.orders)
      ensures id in IdsAt(os, side, level.price)
    {
      var n :| 0 <= n < |level.orders| && level.orders[n].id == id;
      var k := AtMember(os, side, level.price, n);
      AtPrice(os, side, level.price, n);
    }
    forall k | 0 <= k < |os| && os[k].side == side && os[k].limitPrice == level.price
      ensures os[k].id in IdsOf(level.orders)
    {
      assert level.orders[Rank(os, k)] == os[k];
    }
  }

  lemma NotInTail(levels: seq<PriceLevel>, side: Octet)
    requires levels != [] && Sorted(levels, side)
    ensures !HasLevel(levels[1..], levels[0].price)
  {
  }

  lemma HasLevelOfTail(levels: seq<PriceLevel>, price: U64)
    requires levels != []
    ensures HasLevel(levels, price) <==> levels[0].price == price || HasLevel(levels[1..], price)
  {
    if HasLevel(levels[1..], price) {
      var n :| 0 <= n < |levels[1..]| && levels[1..][n].price == price;
      assert levels[n + 1].price == price;
    }
    if n :| 0 < n < |levels| && levels[n].price == price {
      assert levels[1..][n - 1].price == price;
    }
  }

  lemma IdsOfTail(levels: seq<PriceLevel>, side: Octet, os: seq<RestingOrder>)
    requires levels != [] && Sorted(levels, side) && DistinctIds(os)
    ensures IdsAtAny(os, side, levels) == IdsAt(os, side, levels[0].price) + IdsAtAny(os, side, levels[1..])
    ensures IdsAt(os, side, levels[0].price) !! IdsAtAny(os, side, levels[1..])
  {
    NotInTail(levels, side);
    forall k | 0 <= k < |os|
      ensures HasLevel(levels, os[k].limitPrice)
         <==> levels[0].price == os[k].limitPrice || HasLevel(levels[1..], os[k].limitPrice)
    {
      HasLevelOfTail(levels, os[k].limitPrice);
    }
    hide HasLevel, Sorted;
  }

  /** The ids listed by a ladder are the ids of its orders, each listed once. */
  lemma {:induction false} IdsOfLadder(levels: seq<PriceLevel>, side: Octet, os: seq<RestingOrder>)
    requires SomeLevels(levels, side, os) && DistinctIds(os)
    ensures |IdsIn(levels)| == CountIn(levels)
    ensures IdsIn(levels) == IdsAtAny(os, side, levels)
  {
    hide LevelOf, IdsOf, IdsAt;
    if levels == [] {
      assert IdsAtAny(os, side, levels) == {};
    } else {
      IdsOfLevel(levels[0], side, os);
      IdsOfLadder(levels[1..], side, os);
      IdsOfTail(levels, side, os);
    }
  }

  function SideIds(os: seq<RestingOrder>, side: Octet): set<U64> {
    set k | 0 <= k < |os| && os[k].side == side :: os[k].id
  }

  lemma IdsOfSide(levels: seq<PriceLevel>, side: Octet, os: seq<RestingOrder>)
    requires Refines(levels, side, os) && DistinctIds(os)
    ensures IdsIn(levels) == SideIds(os, side) && |IdsIn(levels)| == CountIn(levels)
  {
    hide LevelOf, HasLevel;
    IdsOfLadder(levels, side, os);
    assert IdsAtAny(os, side, levels) == SideIds(os, side);
  }

  lemma SidesPartition(active: map<U64, Locator>, os: seq<RestingOrder>)
    requires DistinctIds(os) && Indexed(active, os)
    requires forall k :: 0 <= k < |os| ==> IsValidSide(os[k].side)
    ensures SideIds(os, BUY) !! SideIds(os, SELL)
    ensures SideIds(os, BUY) + SideIds(os, SELL) == active.Keys
  {
  }

  /** The index and the lists hold the same orders, each once. */
  lemma {:induction false} IndexIsBijection(
    bids: seq<PriceLevel>, asks: seq<PriceLevel>, active: map<U64, Locator>, os: seq<RestingOrder>)
    requires Refines(bids, BUY, os) && Refines(asks, SELL, os) && DistinctIds(os) && Indexed(active, os)
    requires forall k :: 0 <= k < |os| ==> IsValidSide(os[k].side)
    ensures IdsIn(bids) + IdsIn(asks) == active.Keys
    ensures |IdsIn(bids) + IdsIn(asks)| == CountIn(bids) + CountIn(asks) == |active|
  {
    hide *;
    IdsOfSide(bids, BUY, os);
    IdsOfSide(asks, SELL, os);
    SidesPartition(active, os);
    assert |active| == |active.Keys|;
  }

  lemma SideIsSound(s: State, b: Book, side: Octet)
    requires Represents(s, b) && IsValidSide(side)
    ensures SideChecks(s, side)
  {
    var levels := Levels(s, side);
    assert Refines(levels, side, b.orders);
    forall n | 0 <= n < |levels|
      ensures LevelChecks(s, side, levels[n])
    {
      assert LevelOf(levels[n], side, b.orders);
      AtArrivalOrdered(b.orders, side, levels[n].price);
      forall k | 0 <= k < |levels[n].orders|
        ensures OrderChecks(s, side, levels[n].price, levels[n].orders[k])
      {
        var i := AtMember(b.orders, side, levels[n].price, k);
        AtPrice(b.orders, side, levels[n].price, k);
        assert Sound(b.orders[i]);
      }
    }
  }

  lemma HeadsAreUncrossed(bids: seq<PriceLevel>, asks: seq<PriceLevel>, os: seq<RestingOrder>)
    requires Refines(bids, BUY, os) && Refines(asks, SELL, os) && Uncrossed(os) && bids != [] && asks != []
    ensures bids[0].price < asks[0].price
  {
    hide Refines;
    HeadOfLadder(bids, BUY, os);
    HeadOfLadder(asks, SELL, os);
    BestIsOfSide(os, BUY);
    BestIsOfSide(os, SELL);
  }

  /** Every state the book can be in passes its self-check. */
  lemma {:induction false} InvariantsAlwaysHold(s: State, b: Book)
    requires Represents(s, b)
    ensures InvariantsHold(s)
  {
    hide Refines, SideChecks, Uncrossed, DistinctIds, ArrivalOrdered, LevelsFit, Indexed, IdsIn, CountIn, Counted;
    SideIsSound(s, b, BUY);
    SideIsSound(s, b, SELL);
    IndexIsBijection(s.bids, s.asks, s.activeOrders, b.orders);
    if s.bids != [] && s.asks != [] {
      HeadsAreUncrossed(s.bids, s.asks, b.orders);
    }
  }
}
