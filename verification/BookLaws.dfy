/** What every command keeps true of the reference book. */
module BookLaws {
  import opened Domain
  import opened FlatBook

  // ---------- Sequences of orders ----------

  lemma {:induction false} AtConcat(a: seq<RestingOrder>, b: seq<RestingOrder>, side: Octet, price: U64)
    ensures At(a + b, side, price) == At(a, side, price) + At(b, side, price)
  {
    if a == [] {
      assert a + b == b;
    } else {
      assert (a + b)[1..] == a[1..] + b;
      AtConcat(a[1..], b, side, price);
    }
  }

  lemma {:induction false} TotalConcat(a: seq<RestingOrder>, b: seq<RestingOrder>)
    ensures Total(a + b) == Total(a) + Total(b)
  {
    if a == [] {
      assert a + b == b;
    } else {
      assert (a + b)[1..] == a[1..] + b;
      TotalConcat(a[1..], b);
    }
  }

  lemma AtSplice(
    a: seq<RestingOrder>, m: seq<RestingOrder>, c: seq<RestingOrder>, side: Octet, price: U64)
    ensures At(a + m + c, side, price) == At(a, side, price) + At(m, side, price) + At(c, side, price)
  {
    AtConcat(a + m, c, side, price);
    AtConcat(a, m, side, price);
  }

  lemma TotalSplice(a: seq<RestingOrder>, m: seq<RestingOrder>, c: seq<RestingOrder>)
    ensures Total(a + m + c) == Total(a) + Total(m) + Total(c)
  {
    TotalConcat(a + m, c);
    TotalConcat(a, m);
  }

  lemma Around(os: seq<RestingOrder>, i: nat)
    requires i < |os|
    ensures os == os[..i] + [os[i]] + os[i + 1..]
  {
  }

  lemma TotalOfExecute(os: seq<RestingOrder>, i: nat, quantity: U64)
    requires i < |os| && quantity <= os[i].remaining
    ensures Total(Execute(os, i, quantity)) == Total(os) - quantity
  {
    Around(os, i);
    TotalSplice(os[..i], [os[i]], os[i + 1..]);
    TotalSplice(os[..i], Leftover(os[i], quantity), os[i + 1..]);
  }

  // ---------- Well-formed books ----------

  ghost predicate ArrivalOrdered(os: seq<RestingOrder>) {
    forall i, j :: 0 <= i < j < |os| ==> os[i].arrival < os[j].arrival
  }

  ghost predicate DistinctIds(os: seq<RestingOrder>) {
    forall i, j :: 0 <= i < j < |os| ==> os[i].id != os[j].id
  }

  /** No buyer is willing to pay what a seller asks. */
  ghost predicate Uncrossed(os: seq<RestingOrder>) {
    forall i, j :: 0 <= i < |os| && 0 <= j < |os| && os[i].side == BUY && os[j].side == SELL ==>
                     os[i].limitPrice < os[j].limitPrice
  }

  ghost predicate LevelsFit(os: seq<RestingOrder>) {
    forall side: Octet, price: U64 :: Total(At(os, side, price)) <= U64_MAX
  }

  ghost predicate ValidOrders(os: seq<RestingOrder>, seen: set<U64>, arrivals: nat) {
    && ArrivalOrdered(os) && DistinctIds(os) && Uncrossed(os) && LevelsFit(os)
    && forall i :: 0 <= i < |os| ==> Sound(os[i]) && os[i].id in seen && os[i].arrival <= arrivals
  }

  ghost predicate Valid(b: Book) {
    ValidOrders(b.orders, b.seen, b.arrivals) && b.arrivals <= U64_MAX && b.issued <= U64_MAX
  }

  /** How the orders at one price look around order `i`, before and after an execution. */
  lemma AtAroundExecute(os: seq<RestingOrder>, i: nat, quantity: U64, side: Octet, price: U64)
    requires i < |os| && quantity <= os[i].remaining
    ensures At(os, side, price)
         == At(os[..i], side, price) + At([os[i]], side, price) + At(os[i + 1..], side, price)
    ensures At(Execute(os, i, quantity), side, price)
         == At(os[..i], side, price) + At(Leftover(os[i], quantity), side, price) + At(os[i + 1..], side, price)
  {
    Around(os, i);
    AtSplice(os[..i], [os[i]], os[i + 1..], side, price);
    AtSplice(os[..i], Leftover(os[i], quantity), os[i + 1..], side, price);
  }

  /** An execution takes its quantity off the maker's own price level and off no other. */
  lemma TotalAtAfterExecute(os: seq<RestingOrder>, i: nat, quantity: U64, side: Octet, price: U64)
    requires i < |os| && quantity <= os[i].remaining
    ensures Total(At(Execute(os, i, quantity), side, price))
         == Total(At(os, side, price))
            - if os[i].side == side && os[i].limitPrice == price then quantity else 0
  {
    AtAroundExecute(os, i, quantity, side, price);
    TotalSplice(At(os[..i], side, price), At([os[i]], side, price), At(os[i + 1..], side, price));
    TotalSplice(At(os[..i], side, price), At(Leftover(os[i], quantity), side, price), At(os[i + 1..], side, price));
  }

  lemma LevelsFitAfterExecute(os: seq<RestingOrder>, i: nat, quantity: U64)
    requires LevelsFit(os) && i < |os| && quantity <= os[i].remaining
    ensures LevelsFit(Execute(os, i, quantity))
  {
    forall side: Octet, price: U64
      ensures Total(At(Execute(os, i, quantity), side, price)) <= U64_MAX
    {
      TotalAtAfterExecute(os, i, quantity, side, price);
    }
  }

  /** Something of every order is open. */
  predicate AllOpen(os: seq<RestingOrder>) {
    forall k :: 0 <= k < |os| ==> os[k].remaining > 0
  }

  /** `o` is the same order as `was`, with less or as much of it open. */
  predicate Shrunk(o: RestingOrder, was: RestingOrder) {
    0 < o.remaining <= was.remaining && o == was.(remaining := o.remaining)
  }

  /** An execution keeps the other orders, in their places. */
  lemma ExecuteOrigin(os: seq<RestingOrder>, i: nat, quantity: U64)
    requires i < |os| && quantity <= os[i].remaining
    requires AllOpen(os)
    ensures var r := Execute(os, i, quantity);
            var gap := if os[i].remaining == quantity then 1 else 0;
            && |r| == |os| - gap
            && forall k :: 0 <= k < |r| ==> Shrunk(r[k], os[if k < i then k else k + gap])
  {
  }

  lemma ExecuteKeepsValid(os: seq<RestingOrder>, seen: set<U64>, arrivals: nat, i: nat, quantity: U64)
    requires ValidOrders(os, seen, arrivals) && i < |os| && quantity <= os[i].remaining
    ensures ValidOrders(Execute(os, i, quantity), seen, arrivals)
  {
    LevelsFitAfterExecute(os, i, quantity);
    ExecuteOrigin(os, i, quantity);
  }

  lemma ExecuteOriginOf(os: seq<RestingOrder>, i: nat, quantity: U64, k: nat) returns (j: nat)
    requires i < |os| && quantity <= os[i].remaining && AllOpen(os) && k < |Execute(os, i, quantity)|
    ensures j < |os| && Shrunk(Execute(os, i, quantity)[k], os[j])
  {
    ExecuteOrigin(os, i, quantity);
    hide Execute;
    j := if k < i || os[i].remaining != quantity then k else k + 1;
  }

  lemma ExecuteLeavesOpen(os: seq<RestingOrder>, i: nat, quantity: U64)
    requires i < |os| && quantity <= os[i].remaining && AllOpen(os)
    ensures AllOpen(Execute(os, i, quantity))
  {
    ExecuteOrigin(os, i, quantity);
    hide Execute;
  }

  /** Every order left by a match was there before it. */
  lemma {:induction false} MatchOrigin(os: seq<RestingOrder>, taker: NewLimitOrder, remaining: U64, k: nat)
    returns (j: nat)
    requires k < |Match(os, taker, remaining).orders|
    requires AllOpen(os)
    ensures j < |os| && Shrunk(Match(os, taker, remaining).orders[k], os[j])
    decreases remaining
  {
    hide Execute, IsBest, AllOpen;
    if CanTrade(os, taker, remaining) {
      var i := BestIndex(os, Opposite(taker.side)).value;
      var quantity := Min(remaining, os[i].remaining);
      IsOpen(os, i);
      ExecuteLeavesOpen(os, i, quantity);
      j := MatchOrigin(Execute(os, i, quantity), taker, remaining - quantity, k);
      j := ExecuteOriginOf(os, i, quantity, j);
    } else {
      j := k;
      IsOpen(os, k);
    }
  }

  lemma IsOpen(os: seq<RestingOrder>, k: nat)
    requires AllOpen(os) && k < |os|
    ensures os[k].remaining > 0
  {
  }

  lemma {:induction false} MatchKeepsValid(
    os: seq<RestingOrder>, seen: set<U64>, arrivals: nat, taker: NewLimitOrder, remaining: U64)
    requires ValidOrders(os, seen, arrivals)
    ensures ValidOrders(Match(os, taker, remaining).orders, seen, arrivals)
    decreases remaining
  {
    if CanTrade(os, taker, remaining) {
      var i := BestIndex(os, Opposite(taker.side)).value;
      var quantity := Min(remaining, os[i].remaining);
      ExecuteKeepsValid(os, seen, arrivals, i, quantity);
      MatchKeepsValid(Execute(os, i, quantity), seen, arrivals, taker, remaining - quantity);
    }
  }

  /** Matching never touches the taker's own side. */
  lemma {:induction false} MatchLeavesOwnSide(
    os: seq<RestingOrder>, taker: NewLimitOrder, remaining: U64, price: U64)
    requires IsValidSide(taker.side)
    ensures At(Match(os, taker, remaining).orders, taker.side, price) == At(os, taker.side, price)
    decreases remaining
  {
    if CanTrade(os, taker, remaining) {
      var i := BestIndex(os, Opposite(taker.side)).value;
      var quantity := Min(remaining, os[i].remaining);
      AtAroundExecute(os, i, quantity, taker.side, price);
      MatchLeavesOwnSide(Execute(os, i, quantity), taker, remaining - quantity, price);
    }
  }

  lemma LevelsFitAfterRest(os: seq<RestingOrder>, o: RestingOrder)
    requires LevelsFit(os) && Total(At(os, o.side, o.limitPrice)) + o.remaining <= U64_MAX
    ensures LevelsFit(os + [o])
  {
    forall side: Octet, price: U64
      ensures Total(At(os + [o], side, price)) <= U64_MAX
    {
      AtConcat(os, [o], side, price);
      TotalConcat(At(os, side, price), At([o], side, price));
    }
  }

  /** An order that found no maker to trade with crosses nobody. */
  lemma UncrossedAfterRest(os: seq<RestingOrder>, taker: NewLimitOrder, o: RestingOrder)
    requires Uncrossed(os) && !CanTrade(os, taker, o.remaining)
    requires AllOpen(os)
    requires o.remaining > 0 && IsValidSide(o.side) && o.side == taker.side && o.limitPrice == taker.limitPrice
    ensures Uncrossed(os + [o])
  {
  }

  lemma DistinctAfterRest(os: seq<RestingOrder>, o: RestingOrder)
    requires ArrivalOrdered(os) && DistinctIds(os)
    requires forall i :: 0 <= i < |os| ==> os[i].id != o.id && os[i].arrival < o.arrival
    ensures ArrivalOrdered(os + [o]) && DistinctIds(os + [o])
  {
  }

  lemma RestKeepsValid(os: seq<RestingOrder>, seen: set<U64>, arrivals: nat, o: RestingOrder)
    requires ValidOrders(os, seen, arrivals)
    requires LevelsFit(os + [o]) && Uncrossed(os + [o])
    requires Sound(o) && o.id in seen && (forall i :: 0 <= i < |os| ==> os[i].id != o.id) && o.arrival == arrivals + 1
    ensures ValidOrders(os + [o], seen, arrivals + 1)
  {
    DistinctAfterRest(os, o);
  }

  /** What is left of an order that found no more makers may rest. */
  lemma RemainderKeepsValid(
    os: seq<RestingOrder>, seen: set<U64>, arrivals: nat, taker: NewLimitOrder, o: RestingOrder)
    requires ValidOrders(os, seen, arrivals) && o.id !in seen && Sound(o) && o.arrival == arrivals + 1
    requires taker.side == o.side && taker.limitPrice == o.limitPrice && !CanTrade(os, taker, o.remaining)
    requires Total(At(os, o.side, o.limitPrice)) + o.remaining <= U64_MAX
    ensures ValidOrders(os + [o], seen + {o.id}, arrivals + 1)
  {
    assert LevelsFit(os + [o]) by {
      LevelsFitAfterRest(os, o);
    }
    assert Uncrossed(os + [o]) by {
      UncrossedAfterRest(os, taker, o);
    }
    RestKeepsValid(os, seen + {o.id}, arrivals, o);
  }

  lemma SettledIsValid(b: Book, o: NewLimitOrder, m: MatchOutcome)
    requires Valid(b) && Defect(b, o).None? && Shortage(b, o, m).None?
    requires m == Match(b.orders, o, o.quantity)
    ensures Valid(Settled(b, o, m))
  {
    assert ValidOrders(m.orders, b.seen, b.arrivals) by {
      MatchKeepsValid(b.orders, b.seen, b.arrivals, o, o.quantity);
    }
    if m.remaining > 0 {
      MatchLeavesOwnSide(b.orders, o, o.quantity, o.limitPrice);
      RemainderKeepsValid(m.orders, b.seen, b.arrivals, o, Remainder(b, o, m.remaining));
    }
  }

  lemma {:induction false} SubmitKeepsValid(b: Book, o: NewLimitOrder)
    requires Valid(b)
    ensures Valid(Submit(b, o).0)
  {
    var m := Match(b.orders, o, o.quantity);
    if Defect(b, o).None? && Shortage(b, o, m).None? {
      SettledIsValid(b, o, m);
    }
  }

  lemma {:induction false} CancelKeepsValid(b: Book, id: U64)
    requires Valid(b)
    ensures Valid(Cancel(b, id).0)
  {
    var i := IndexOf(b.orders, id);
    if i.Some? {
      ExecuteKeepsValid(b.orders, b.seen, b.arrivals, i.value, b.orders[i.value].remaining);
    }
  }

  // ---------- Price-time priority ----------

  /** Order `o` has priority over order `than`. */
  predicate Ahead(o: RestingOrder, than: RestingOrder) {
    || (if o.side == BUY then o.limitPrice > than.limitPrice else o.limitPrice < than.limitPrice)
    || (o.limitPrice == than.limitPrice && o.arrival < than.arrival)
  }

  /** The first maker of a match has nobody ahead of it. */
  lemma BestIsFirst(os: seq<RestingOrder>, side: Octet, o: RestingOrder)
    requires ArrivalOrdered(os) && BestIndex(os, side).Some? && o in os && o.side == side
    ensures !Ahead(o, os[BestIndex(os, side).value])
  {
    var j :| 0 <= j < |os| && os[j] == o;
  }

  lemma RemovedOnly(os: seq<RestingOrder>, i: nat)
    requires i < |os| && ArrivalOrdered(os)
    ensures ArrivalOrdered(Execute(os, i, os[i].remaining))
    ensures forall o :: o in os && o != os[i] ==> o in Execute(os, i, os[i].remaining)
    ensures forall o :: o in Execute(os, i, os[i].remaining) ==> o in os
  {
  }

  /** Whoever is ahead of `maker` has been filled completely by `fills`. */
  ghost predicate AheadFilled(os: seq<RestingOrder>, maker: RestingOrder, fills: seq<Fill>) {
    forall o :: o in os && o.side == maker.side && Ahead(o, maker) ==> Fill(o.id, o.limitPrice, o.remaining) in fills
  }

  lemma NobodyAheadOfBest(os: seq<RestingOrder>, side: Octet)
    requires ArrivalOrdered(os) && BestIndex(os, side).Some?
    ensures AheadFilled(os, os[BestIndex(os, side).value], [])
  {
    hide IsBest, Ahead;
    var maker := os[BestIndex(os, side).value];
    BestIsOfSide(os, side);
    forall o | o in os && o.side == maker.side
      ensures !Ahead(o, maker)
    {
      BestIsFirst(os, side, o);
    }
  }

  lemma BestIsOfSide(os: seq<RestingOrder>, side: Octet)
    requires BestIndex(os, side).Some?
    ensures os[BestIndex(os, side).value].side == side
  {
  }

  /** A maker filled completely and the fills after it cover whoever was ahead. */
  lemma AheadFilledByOneMore(os: seq<RestingOrder>, i: nat, maker: RestingOrder, fills: seq<Fill>)
    requires i < |os| && ArrivalOrdered(os) && maker in Execute(os, i, os[i].remaining)
    requires AheadFilled(Execute(os, i, os[i].remaining), maker, fills)
    ensures AheadFilled(os, maker, [Fill(os[i].id, os[i].limitPrice, os[i].remaining)] + fills)
    ensures maker in os
  {
    hide Ahead, Execute;
    RemovedOnly(os, i);
  }

  /** Every trade hits a crossing maker, and whoever was ahead of that maker is filled by then. */
  lemma {:induction false} NobodyIsPassedOver(
    os: seq<RestingOrder>, taker: NewLimitOrder, remaining: U64, k: nat) returns (maker: RestingOrder)
    requires ArrivalOrdered(os) && k < |Match(os, taker, remaining).fills|
    ensures maker in os && maker.side == Opposite(taker.side)
    ensures if taker.side == BUY then maker.limitPrice <= taker.limitPrice else maker.limitPrice >= taker.limitPrice
    ensures var fill := Match(os, taker, remaining).fills[k];
            fill == Fill(maker.id, maker.limitPrice, fill.quantity) && 0 < fill.quantity <= maker.remaining
    ensures AheadFilled(os, maker, Match(os, taker, remaining).fills[..k])
    decreases remaining
  {
    hide IsBest, Better, Execute, AheadFilled, ArrivalOrdered, Ahead;
    var i := BestIndex(os, Opposite(taker.side)).value;
    var quantity := Min(remaining, os[i].remaining);
    var first := Fill(os[i].id, os[i].limitPrice, quantity);
    var rest := Match(Execute(os, i, quantity), taker, remaining - quantity);
    BestIsOfSide(os, Opposite(taker.side));
    if k == 0 {
      maker := os[i];
      NobodyAheadOfBest(os, Opposite(taker.side));
    } else {
      assert quantity == os[i].remaining;
      OrderedAfterRemoval(os, i);
      maker := NobodyIsPassedOver(Execute(os, i, quantity), taker, remaining - quantity, k - 1);
      AheadFilledByOneMore(os, i, maker, rest.fills[..k - 1]);
      assert Match(os, taker, remaining).fills[..k] == [first] + rest.fills[..k - 1];
    }
  }

  lemma OrderedAfterRemoval(os: seq<RestingOrder>, i: nat)
    requires i < |os| && ArrivalOrdered(os)
    ensures ArrivalOrdered(Execute(os, i, os[i].remaining))
  {
    RemovedOnly(os, i);
  }
}
