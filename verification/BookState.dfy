/** The state of the production book and what it stands for. */
module BookState {
  import opened Domain
  import opened FlatBook
  import opened BookLaws
  import opened Ladder

  // A locator names the node of one order: its side, its price and, standing for the list
  // iterator, its arrival sequence, which no other node ever carries.
  datatype Locator = Locator(side: Octet, price: U64, node: U64)

  datatype State = State(
    bids: seq<PriceLevel>,
    asks: seq<PriceLevel>,
    activeOrders: map<U64, Locator>,
    seenOrderIds: set<U64>,
    nextArrivalSequence: U64,
    nextTradeId: U64)

  function Levels(s: State, side: Octet): seq<PriceLevel> {
    if side == BUY then s.bids else s.asks
  }

  function WithLevels(s: State, side: Octet, levels: seq<PriceLevel>): State {
    if side == BUY then s.(bids := levels) else s.(asks := levels)
  }

  function LocatorOf(o: RestingOrder): Locator {
    Locator(o.side, o.limitPrice, o.arrival)
  }

  /** The index knows every resting order, where it is, and nothing else. */
  ghost predicate Indexed(active: map<U64, Locator>, os: seq<RestingOrder>) {
    && (forall k :: 0 <= k < |os| ==> os[k].id in active && active[os[k].id] == LocatorOf(os[k]))
    && (forall id :: id in active ==> exists k :: 0 <= k < |os| && os[k].id == id)
  }

  /** A wrapping counter after `n` increments from 1: 0 means exhausted. */
  function CounterAfter(n: nat): U64
    requires n <= U64_MAX
  {
    if n == U64_MAX then 0 else n + 1
  }

  ghost predicate BothRefine(s: State, os: seq<RestingOrder>) {
    Refines(s.bids, BUY, os) && Refines(s.asks, SELL, os)
  }

  ghost predicate Counted(s: State, b: Book) {
    && s.seenOrderIds == b.seen
    && b.arrivals <= U64_MAX && s.nextArrivalSequence == CounterAfter(b.arrivals)
    && b.issued <= U64_MAX && s.nextTradeId == CounterAfter(b.issued)
  }

  ghost predicate Represents(s: State, b: Book) {
    Valid(b) && BothRefine(s, b.orders) && Indexed(s.activeOrders, b.orders) && Counted(s, b)
  }
}

/** Each change of the production book is the corresponding change of the flat book. */
module BookSimulation {
  import opened Domain
  import opened FlatBook
  import opened BookLaws
  import opened Ladder
  import opened BookState

  // ---------- One trade ----------

  lemma IndexedAfterShrink(active: map<U64, Locator>, os: seq<RestingOrder>, i: nat, quantity: U64)
    requires Indexed(active, os) && i < |os| && quantity < os[i].remaining
    ensures Indexed(active, Execute(os, i, quantity))
  {
    var os' := Execute(os, i, quantity);
    assert |os'| == |os|;
    assert forall k :: 0 <= k < |os| ==> os'[k].id == os[k].id && LocatorOf(os'[k]) == LocatorOf(os[k]);
  }

  lemma RemovedShifts(os: seq<RestingOrder>, i: nat)
    requires i < |os|
    ensures var os' := Execute(os, i, os[i].remaining);
            && |os'| == |os| - 1
            && (forall k :: 0 <= k < i ==> os'[k] == os[k])
            && (forall k :: i <= k < |os'| ==> os'[k] == os[k + 1])
  {
  }

  lemma IndexedAfterRemove(active: map<U64, Locator>, os: seq<RestingOrder>, i: nat)
    requires Indexed(active, os) && DistinctIds(os) && i < |os|
    ensures Indexed(active - {os[i].id}, Execute(os, i, os[i].remaining))
  {
    hide Execute;
    var os' := Execute(os, i, os[i].remaining);
    RemovedShifts(os, i);
    forall id | id in active - {os[i].id}
      ensures exists k :: 0 <= k < |os'| && os'[k].id == id
    {
      var k :| 0 <= k < |os| && os[k].id == id;
      assert os'[if k < i then k else k - 1].id == id;
    }
    forall k | 0 <= k < |os'|
      ensures os'[k].id in active - {os[i].id} && active[os'[k].id] == LocatorOf(os'[k])
    {
      assert os'[k] == os[if k < i then k else k + 1];
    }
  }

  /** The state after the best maker of `side` has traded `quantity`. */
  function Traded(s: State, side: Octet, quantity: U64): State
    requires var levels := Levels(s, side);
             levels != [] && levels[0].orders != [] && quantity <= levels[0].orders[0].remaining
             && quantity <= levels[0].total
  {
    var levels := Levels(s, side);
    var maker := levels[0].orders[0];
    WithLevels(s, side, Patch(levels, 0, Reduced(levels[0], 0, quantity))).(
      activeOrders := if quantity == maker.remaining then s.activeOrders - {maker.id} else s.activeOrders,
      nextTradeId := Increment(s.nextTradeId))
  }

  /** The flat book after the same trade. */
  function FlatTraded(b: Book, side: Octet, quantity: U64): Book
    requires BestIndex(b.orders, side).Some?
    requires quantity <= b.orders[BestIndex(b.orders, side).value].remaining
  {
    b.(orders := Execute(b.orders, BestIndex(b.orders, side).value, quantity), issued := b.issued + 1)
  }

  lemma IndexedAfterExecute(active: map<U64, Locator>, os: seq<RestingOrder>, i: nat, quantity: U64)
    requires Indexed(active, os) && DistinctIds(os) && i < |os| && quantity <= os[i].remaining
    ensures Indexed(if quantity == os[i].remaining then active - {os[i].id} else active, Execute(os, i, quantity))
  {
    if quantity == os[i].remaining {
      IndexedAfterRemove(active, os, i);
    } else {
      IndexedAfterShrink(active, os, i, quantity);
    }
  }

  lemma TradeRefinesLevels(s: State, os: seq<RestingOrder>, side: Octet, quantity: U64)
    requires BothRefine(s, os) && IsValidSide(side)
    requires Levels(s, side) != [] && quantity <= Levels(s, side)[0].orders[0].remaining
    ensures quantity <= Levels(s, side)[0].total
    ensures BestIndex(os, side).Some? && Levels(s, side)[0].orders[0] == os[BestIndex(os, side).value]
    ensures Levels(s, side)[0].orders[0].limitPrice == Levels(s, side)[0].price
    ensures BothRefine(Traded(s, side, quantity), Execute(os, BestIndex(os, side).value, quantity))
  {
    HeadRefines(Levels(s, side), side, os, quantity);
    OtherSideRefines(Levels(s, Opposite(side)), Opposite(side), os, BestIndex(os, side).value, quantity);
  }

  lemma {:induction false} TradeRefines(s: State, b: Book, side: Octet, quantity: U64)
    requires Represents(s, b) && IsValidSide(side) && b.issued < U64_MAX
    requires Levels(s, side) != [] && quantity <= Levels(s, side)[0].orders[0].remaining
    ensures quantity <= Levels(s, side)[0].total
    ensures BestIndex(b.orders, side).Some?
    ensures Levels(s, side)[0].orders[0] == b.orders[BestIndex(b.orders, side).value]
    ensures Levels(s, side)[0].orders[0].limitPrice == Levels(s, side)[0].price
    ensures Represents(Traded(s, side, quantity), FlatTraded(b, side, quantity))
  {
    TradeRefinesLevels(s, b.orders, side, quantity);
    var i := BestIndex(b.orders, side).value;
    var (s', b') := (Traded(s, side, quantity), FlatTraded(b, side, quantity));
    assert Valid(b') by {
      ExecuteKeepsValid(b.orders, b.seen, b.arrivals, i, quantity);
    }
    assert Indexed(s'.activeOrders, b'.orders) by {
      IndexedAfterExecute(s.activeOrders, b.orders, i, quantity);
    }
    assert Counted(s', b');
  }

  // ---------- Resting ----------

  lemma IndexedAfterRest(active: map<U64, Locator>, os: seq<RestingOrder>, o: RestingOrder)
    requires Indexed(active, os) && forall k :: 0 <= k < |os| ==> os[k].id != o.id
    ensures Indexed(active[o.id := LocatorOf(o)], os + [o])
  {
    var active' := active[o.id := LocatorOf(o)];
    forall id | id in active'
      ensures exists k :: 0 <= k < |os + [o]| && (os + [o])[k].id == id
    {
      if id == o.id {
        assert (os + [o])[|os|].id == id;
      } else {
        var k :| 0 <= k < |os| && os[k].id == id;
        assert (os + [o])[k].id == id;
      }
    }
  }

  /** The level of `o`, if there is one, has room for it. */
  predicate Fits(levels: seq<PriceLevel>, o: RestingOrder) {
    var j := LowerBound(levels, o.side, o.limitPrice);
    Finds(levels, j, o.limitPrice) ==> levels[j].total + o.remaining <= U64_MAX
  }

  /** The state after `o` has joined its level. */
  function Rested(s: State, o: RestingOrder): State
    requires Fits(Levels(s, o.side), o)
  {
    WithLevels(s, o.side, Joined(Levels(s, o.side), o)).(
      activeOrders := s.activeOrders[o.id := LocatorOf(o)],
      nextArrivalSequence := Increment(s.nextArrivalSequence))
  }

  lemma RestRefinesLevels(s: State, os: seq<RestingOrder>, o: RestingOrder)
    requires BothRefine(s, os) && IsValidSide(o.side) && Fits(Levels(s, o.side), o)
    ensures BothRefine(Rested(s, o), os + [o])
  {
    JoinedRefines(Levels(s, o.side), os, o);
    OtherSideRefinesAfterRest(Levels(s, Opposite(o.side)), Opposite(o.side), os, o);
  }

  lemma {:induction false} RestRefines(s: State, b: Book, o: RestingOrder)
    requires Represents(s, b) && Fits(Levels(s, o.side), o) && b.arrivals < U64_MAX
    requires Valid(b.(orders := b.orders + [o], arrivals := b.arrivals + 1))
    ensures Represents(Rested(s, o), b.(orders := b.orders + [o], arrivals := b.arrivals + 1))
  {
    var (s', b') := (Rested(s, o), b.(orders := b.orders + [o], arrivals := b.arrivals + 1));
    assert Sound(b'.orders[|b.orders|]);
    assert BothRefine(s', b'.orders) by {
      RestRefinesLevels(s, b.orders, o);
    }
    assert Indexed(s'.activeOrders, b'.orders) by {
      FreshId(b.orders, o);
      IndexedAfterRest(s.activeOrders, b.orders, o);
    }
    assert Counted(s', b');
  }

  lemma FreshId(os: seq<RestingOrder>, o: RestingOrder)
    requires DistinctIds(os + [o])
    ensures forall k :: 0 <= k < |os| ==> os[k].id != o.id
  {
    forall k | 0 <= k < |os|
      ensures os[k].id != o.id
    {
      assert (os + [o])[k].id != (os + [o])[|os|].id;
    }
  }

  // ---------- Cancelling ----------

  /** The place of the node a locator points to. */
  function NodeIndex(os: seq<RestingOrder>, node: U64): (r: Option<nat>)
    ensures r.Some? ==> r.value < |os| && os[r.value].arrival == node
    ensures r.None? ==> forall k :: 0 <= k < |os| ==> os[k].arrival != node
  {
    if os == [] then None
    else if os[|os| - 1].arrival == node then Some(|os| - 1)
    else NodeIndex(os[..|os| - 1], node)
  }

  lemma {:induction false} AtMember(os: seq<RestingOrder>, side: Octet, price: U64, n: nat) returns (k: nat)
    requires n < |At(os, side, price)|
    ensures k < |os| && os[k] == At(os, side, price)[n]
  {
    if os[0].side == side && os[0].limitPrice == price {
      if n == 0 {
        k := 0;
      } else {
        k := AtMember(os[1..], side, price, n - 1);
        k := k + 1;
      }
    } else {
      k := AtMember(os[1..], side, price, n);
      k := k + 1;
    }
  }

  /** Within a level, too, arrivals increase strictly. */
  lemma {:induction false} AtArrivalOrdered(os: seq<RestingOrder>, side: Octet, price: U64)
    requires ArrivalOrdered(os)
    ensures ArrivalOrdered(At(os, side, price))
  {
    if os != [] {
      AtArrivalOrdered(os[1..], side, price);
      forall n | 0 <= n < |At(os[1..], side, price)|
        ensures os[0].arrival < At(os[1..], side, price)[n].arrival
      {
        var k := AtMember(os[1..], side, price, n);
      }
    }
  }

  lemma NodeIsRank(os: seq<RestingOrder>, i: nat)
    requires ArrivalOrdered(os) && i < |os|
    ensures NodeIndex(At(os, os[i].side, os[i].limitPrice), os[i].arrival) == Some(Rank(os, i))
  {
    hide At, Rank, NodeIndex;
    AtArrivalOrdered(os, os[i].side, os[i].limitPrice);
    var level := At(os, os[i].side, os[i].limitPrice);
    var r := NodeIndex(level, os[i].arrival);
    assert level[Rank(os, i)].arrival == os[i].arrival;
  }

  /** The state after the order at place `rank` of level `j` has been withdrawn. */
  function Withdrawn(s: State, side: Octet, j: nat, rank: nat): State
    requires j < |Levels(s, side)| && rank < |Levels(s, side)[j].orders|
    requires Levels(s, side)[j].orders[rank].remaining <= Levels(s, side)[j].total
  {
    var levels := Levels(s, side);
    var o := levels[j].orders[rank];
    WithLevels(s, side, Patch(levels, j, Reduced(levels[j], rank, o.remaining))).(
      activeOrders := s.activeOrders - {o.id})
  }

  /** What the index says about a resting order leads to it. */
  lemma {:induction false} LocatorLeadsToOrder(s: State, b: Book, id: U64) returns (j: nat, rank: nat)
    requires Represents(s, b)
    ensures id in s.activeOrders <==> IndexOf(b.orders, id).Some?
    ensures id in s.activeOrders ==>
              var o := b.orders[IndexOf(b.orders, id).value];
              && s.activeOrders[id] == LocatorOf(o)
              && j == LowerBound(Levels(s, o.side), o.side, o.limitPrice)
              && Finds(Levels(s, o.side), j, o.limitPrice)
              && NodeIndex(Levels(s, o.side)[j].orders, o.arrival) == Some(rank)
              && Levels(s, o.side)[j].orders[rank] == o
              && rank == Rank(b.orders, IndexOf(b.orders, id).value)
              && o.remaining <= Levels(s, o.side)[j].total
  {
    j, rank := 0, 0;
    if id in s.activeOrders {
      var i := IndexOf(b.orders, id).value;
      var o := b.orders[i];
      var levels := Levels(s, o.side);
      assert Sound(o) && Refines(levels, o.side, b.orders);
      assert HasLevel(levels, o.limitPrice);
      LowerBoundFinds(levels, o.side, o.limitPrice);
      j := LowerBound(levels, o.side, o.limitPrice);
      rank := Rank(b.orders, i);
      NodeIsRank(b.orders, i);
      assert LevelOf(levels[j], o.side, b.orders);
      PartOfTotal(levels[j].orders, rank);
    }
  }

  lemma WithdrawalRefinesLevels(s: State, os: seq<RestingOrder>, i: nat, j: nat)
    requires BothRefine(s, os) && i < |os| && IsValidSide(os[i].side)
    requires Finds(Levels(s, os[i].side), j, os[i].limitPrice)
    requires Rank(os, i) < |Levels(s, os[i].side)[j].orders|
    requires Levels(s, os[i].side)[j].orders[Rank(os, i)] == os[i]
    requires os[i].remaining <= Levels(s, os[i].side)[j].total
    ensures BothRefine(Withdrawn(s, os[i].side, j, Rank(os, i)), Execute(os, i, os[i].remaining))
  {
    var side := os[i].side;
    var levels := Levels(s, side);
    PatchRefines(levels, j, Reduced(levels[j], Rank(os, i), os[i].remaining), os, i, os[i].remaining);
    OtherSideRefines(Levels(s, Opposite(side)), Opposite(side), os, i, os[i].remaining);
  }

  lemma {:induction false} WithdrawalRefines(s: State, b: Book, id: U64, j: nat, rank: nat)
    requires Represents(s, b) && IndexOf(b.orders, id).Some?
    requires var i := IndexOf(b.orders, id).value;
             var o := b.orders[i];
             && Finds(Levels(s, o.side), j, o.limitPrice) && rank == Rank(b.orders, i)
             && rank < |Levels(s, o.side)[j].orders| && Levels(s, o.side)[j].orders[rank] == o
             && o.remaining <= Levels(s, o.side)[j].total
    ensures Represents(Withdrawn(s, b.orders[IndexOf(b.orders, id).value].side, j, rank), Cancel(b, id).0)
  {
    var i := IndexOf(b.orders, id).value;
    var (s', b') := (Withdrawn(s, b.orders[i].side, j, rank), Cancel(b, id).0);
    assert Sound(b.orders[i]);
    assert BothRefine(s', b'.orders) by {
      WithdrawalRefinesLevels(s, b.orders, i, j);
    }
    assert Valid(b') by {
      CancelKeepsValid(b, id);
    }
    assert Indexed(s'.activeOrders, b'.orders) by {
      IndexedAfterRemove(s.activeOrders, b.orders, i);
    }
    assert Counted(s', b');
  }
}
