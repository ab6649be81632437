/**
 One side of the production book: price levels sorted best first (the iteration order
 of the ordered map), each with a first-in-first-out list of orders and a running total.
 */
module Ladder {
  import opened Domain
  import opened FlatBook
  import opened BookLaws

  datatype PriceLevel = PriceLevel(price: U64, orders: seq<RestingOrder>, total: U64)

  ghost predicate Sorted(levels: seq<PriceLevel>, side: Octet) {
    forall i, j :: 0 <= i < j < |levels| ==> Better(side, levels[i].price, levels[j].price)
  }

  /** The level lists the orders of its price in arrival order, and its total is their sum. */
  ghost predicate LevelOf(level: PriceLevel, side: Octet, os: seq<RestingOrder>) {
    level.orders != [] && level.orders == At(os, side, level.price) && level.total == Total(level.orders)
  }

  ghost predicate HasLevel(levels: seq<PriceLevel>, price: U64) {
    exists i :: 0 <= i < |levels| && levels[i].price == price
  }

  ghost predicate Covers(levels: seq<PriceLevel>, side: Octet, os: seq<RestingOrder>) {
    forall k :: 0 <= k < |os| && os[k].side == side ==> HasLevel(levels, os[k].limitPrice)
  }

  /** The ladder holds exactly the orders of `side` in the flat book `os`. */
  ghost predicate Refines(levels: seq<PriceLevel>, side: Octet, os: seq<RestingOrder>) {
    && Sorted(levels, side)
    && (forall i :: 0 <= i < |levels| ==> LevelOf(levels[i], side, os))
    && Covers(levels, side, os)
  }

  // ---------- Membership ----------

  lemma {:induction false} AtIsEmpty(os: seq<RestingOrder>, side: Octet, price: U64)
    requires forall k :: 0 <= k < |os| && os[k].side == side ==> os[k].limitPrice != price
    ensures At(os, side, price) == []
  {
    if os != [] {
      AtIsEmpty(os[1..], side, price);
    }
  }

  lemma {:induction false} AtHasMember(os: seq<RestingOrder>, side: Octet, price: U64) returns (k: nat)
    requires At(os, side, price) != []
    ensures k < |os| && os[k].side == side && os[k].limitPrice == price
  {
    if os[0].side == side && os[0].limitPrice == price {
      k := 0;
    } else {
      k := AtHasMember(os[1..], side, price);
      k := k + 1;
    }
  }

  /** Order `i` stands at place `rank` in the list of its price level. */
  function Rank(os: seq<RestingOrder>, i: nat): (rank: nat)
    requires i < |os|
    ensures At(os, os[i].side, os[i].limitPrice)
         == At(os[..i], os[i].side, os[i].limitPrice) + [os[i]] + At(os[i + 1..], os[i].side, os[i].limitPrice)
    ensures rank < |At(os, os[i].side, os[i].limitPrice)|
    ensures At(os, os[i].side, os[i].limitPrice)[rank] == os[i]
  {
    hide Execute, Leftover;
    Around(os, i);
    AtSplice(os[..i], [os[i]], os[i + 1..], os[i].side, os[i].limitPrice);
    |At(os[..i], os[i].side, os[i].limitPrice)|
  }

  // ---------- The best maker is the head of the first level ----------

  lemma {:induction false} HeadIsBest(levels: seq<PriceLevel>, side: Octet, os: seq<RestingOrder>)
    requires Refines(levels, side, os)
    ensures levels == [] <==> BestIndex(os, side).None?
    ensures levels != [] ==> var i := BestIndex(os, side).value;
                             os[i].limitPrice == levels[0].price && Rank(os, i) == 0
  {
    var best := BestIndex(os, side);
    if levels != [] {
      var k := AtHasMember(os, side, levels[0].price);
      var i := best.value;
      assert HasLevel(levels, os[i].limitPrice);
      assert os[i].limitPrice == levels[0].price;
      AtIsEmpty(os[..i], side, levels[0].price);
    }
  }

  // ---------- Executions and cancellations ----------

  /** The ladder with level `j` replaced, or erased once its list is empty. */
  function Patch(levels: seq<PriceLevel>, j: nat, level: PriceLevel): seq<PriceLevel>
    requires j < |levels|
  {
    levels[..j] + (if level.orders == [] then [] else [level]) + levels[j + 1..]
  }

  /** Level `level` after `quantity` of its order `rank` has traded or been withdrawn. */
  function Reduced(level: PriceLevel, rank: nat, quantity: U64): PriceLevel
    requires rank < |level.orders| && quantity <= level.orders[rank].remaining && quantity <= level.total
  {
    PriceLevel(level.price, Execute(level.orders, rank, quantity), level.total - quantity)
  }

  lemma {:induction false} PartOfTotal(os: seq<RestingOrder>, rank: nat)
    requires rank < |os|
    ensures os[rank].remaining <= Total(os)
  {
    if rank > 0 {
      PartOfTotal(os[1..], rank - 1);
    }
  }

  lemma ExecuteBetween(a: seq<RestingOrder>, o: RestingOrder, c: seq<RestingOrder>, quantity: U64)
    requires quantity <= o.remaining
    ensures Execute(a + [o] + c, |a|, quantity) == a + Leftover(o, quantity) + c
  {
    assert (a + [o] + c)[..|a|] == a;
    assert (a + [o] + c)[|a| + 1..] == c;
  }

  lemma ReducedIsLevelOf(level: PriceLevel, os: seq<RestingOrder>, i: nat, quantity: U64)
    requires i < |os| && quantity <= os[i].remaining
    requires LevelOf(level, os[i].side, os) && level.price == os[i].limitPrice
    ensures quantity <= level.total && Rank(os, i) < |level.orders| && level.orders[Rank(os, i)] == os[i]
    ensures var level' := Reduced(level, Rank(os, i), quantity);
            && level'.orders == At(Execute(os, i, quantity), os[i].side, level.price)
            && level'.total == Total(level'.orders)
  {
    var (side, price) := (os[i].side, os[i].limitPrice);
    PartOfTotal(level.orders, Rank(os, i));
    AtAroundExecute(os, i, quantity, side, price);
    assert At(Leftover(os[i], quantity), side, price) == Leftover(os[i], quantity);
    ExecuteBetween(At(os[..i], side, price), os[i], At(os[i + 1..], side, price), quantity);
    TotalOfExecute(level.orders, Rank(os, i), quantity);
  }

  lemma LevelOfElsewhere(level: PriceLevel, side: Octet, os: seq<RestingOrder>, i: nat, quantity: U64)
    requires i < |os| && quantity <= os[i].remaining && LevelOf(level, side, os)
    requires side != os[i].side || level.price != os[i].limitPrice
    ensures LevelOf(level, side, Execute(os, i, quantity))
  {
    AtAroundExecute(os, i, quantity, side, level.price);
  }

  lemma CoversAfterExecute(levels: seq<PriceLevel>, side: Octet, os: seq<RestingOrder>, i: nat, quantity: U64)
    requires Covers(levels, side, os) && i < |os| && quantity <= os[i].remaining
    ensures Covers(levels, side, Execute(os, i, quantity))
  {
  }

  lemma HasLevelAfterPatch(levels: seq<PriceLevel>, j: nat, level: PriceLevel, price: U64)
    requires j < |levels| && level.price == levels[j].price && HasLevel(levels, price)
    requires price == level.price ==> level.orders != []
    ensures HasLevel(Patch(levels, j, level), price)
  {
    var k :| 0 <= k < |levels| && levels[k].price == price;
    var gap := if level.orders == [] then 1 else 0;
    assert Patch(levels, j, level)[if k <= j then k else k - gap].price == price;
  }

  lemma SortedAfterPatch(levels: seq<PriceLevel>, side: Octet, j: nat, level: PriceLevel)
    requires Sorted(levels, side) && j < |levels| && level.price == levels[j].price
    ensures Sorted(Patch(levels, j, level), side)
  {
  }

  /** Reducing an order in its level is executing it in the flat book. */
  lemma {:induction false} PatchRefines(
    levels: seq<PriceLevel>, j: nat, level': PriceLevel, os: seq<RestingOrder>, i: nat, quantity: U64)
    requires i < |os| && quantity <= os[i].remaining && Refines(levels, os[i].side, os)
    requires j < |levels| && levels[j].price == os[i].limitPrice
    requires Rank(os, i) < |levels[j].orders| && levels[j].orders[Rank(os, i)] == os[i]
    requires quantity <= levels[j].total && level' == Reduced(levels[j], Rank(os, i), quantity)
    ensures Refines(Patch(levels, j, level'), os[i].side, Execute(os, i, quantity))
  {
    var (side, os') := (os[i].side, Execute(os, i, quantity));
    var levels' := Patch(levels, j, level');
    ReducedIsLevelOf(levels[j], os, i, quantity);
    SortedAfterPatch(levels, side, j, level');
    forall n | 0 <= n < |levels'|
      ensures LevelOf(levels'[n], side, os')
    {
      if levels'[n] != level' {
        var m := if n < j then n else if level'.orders == [] then n + 1 else n;
        assert levels'[n] == levels[m];
        LevelOfElsewhere(levels[m], side, os, i, quantity);
      }
    }
    CoversAfterExecute(levels, side, os, i, quantity);
    forall k | 0 <= k < |os'| && os'[k].side == side
      ensures HasLevel(levels', os'[k].limitPrice)
    {
      if os'[k].limitPrice == level'.price {
        var rank := Rank(os', k);
      }
      HasLevelAfterPatch(levels, j, level', os'[k].limitPrice);
    }
  }

  /** Trading with the head of the first level is trading with the best maker of the flat book. */
  lemma HeadRefines(levels: seq<PriceLevel>, side: Octet, os: seq<RestingOrder>, quantity: U64)
    requires Refines(levels, side, os) && levels != [] && quantity <= levels[0].orders[0].remaining
    ensures BestIndex(os, side).Some? && os[BestIndex(os, side).value] == levels[0].orders[0]
    ensures levels[0].orders[0].limitPrice == levels[0].price
    ensures quantity <= levels[0].total
    ensures Refines(Patch(levels, 0, Reduced(levels[0], 0, quantity)), side,
                    Execute(os, BestIndex(os, side).value, quantity))
  {
    HeadIsBest(levels, side, os);
    var i := BestIndex(os, side).value;
    assert levels[0].orders[0] == os[i];
    ReducedIsLevelOf(levels[0], os, i, quantity);
    PatchRefines(levels, 0, Reduced(levels[0], 0, quantity), os, i, quantity);
  }

  lemma OtherSideRefines(levels: seq<PriceLevel>, side: Octet, os: seq<RestingOrder>, i: nat, quantity: U64)
    requires i < |os| && quantity <= os[i].remaining && os[i].side != side && Refines(levels, side, os)
    ensures Refines(levels, side, Execute(os, i, quantity))
  {
    forall n | 0 <= n < |levels|
      ensures LevelOf(levels[n], side, Execute(os, i, quantity))
    {
      LevelOfElsewhere(levels[n], side, os, i, quantity);
    }
    CoversAfterExecute(levels, side, os, i, quantity);
  }

  // ---------- Resting orders ----------

  /** Where the ordered map keeps, or would insert, the level of `price`. */
  function LowerBound(levels: seq<PriceLevel>, side: Octet, price: U64): (j: nat)
    ensures j <= |levels|
    ensures forall i :: 0 <= i < j ==> Better(side, levels[i].price, price)
    ensures j < |levels| ==> !Better(side, levels[j].price, price)
  {
    if levels == [] || !Better(side, levels[0].price, price) then 0
    else LowerBound(levels[1..], side, price) + 1
  }

  predicate Finds(levels: seq<PriceLevel>, j: nat, price: U64) {
    j < |levels| && levels[j].price == price
  }

  lemma LowerBoundFinds(levels: seq<PriceLevel>, side: Octet, price: U64)
    requires Sorted(levels, side)
    ensures Finds(levels, LowerBound(levels, side, price), price) <==> HasLevel(levels, price)
  {
    var j := LowerBound(levels, side, price);
    if k :| 0 <= k < |levels| && levels[k].price == price {
      assert j < |levels|;
    }
  }

  /** The ladder after `o` has joined the end of its level, which is created if need be. */
  function Joined(levels: seq<PriceLevel>, o: RestingOrder): seq<PriceLevel>
    requires var j := LowerBound(levels, o.side, o.limitPrice);
             Finds(levels, j, o.limitPrice) ==> levels[j].total + o.remaining <= U64_MAX
  {
    var j := LowerBound(levels, o.side, o.limitPrice);
    if Finds(levels, j, o.limitPrice)
    then levels[j := PriceLevel(o.limitPrice, levels[j].orders + [o], levels[j].total + o.remaining)]
    else Inserted(levels, j, PriceLevel(o.limitPrice, [o], o.remaining))
  }

  lemma LevelOfAfterRest(level: PriceLevel, side: Octet, os: seq<RestingOrder>, o: RestingOrder)
    requires LevelOf(level, side, os) && (side != o.side || level.price != o.limitPrice)
    ensures LevelOf(level, side, os + [o])
  {
    AtConcat(os, [o], side, level.price);
  }

  lemma OtherSideRefinesAfterRest(levels: seq<PriceLevel>, side: Octet, os: seq<RestingOrder>, o: RestingOrder)
    requires side != o.side && Refines(levels, side, os)
    ensures Refines(levels, side, os + [o])
  {
    forall n | 0 <= n < |levels|
      ensures LevelOf(levels[n], side, os + [o])
    {
      LevelOfAfterRest(levels[n], side, os, o);
    }
  }

  lemma JoinedToLevel(levels: seq<PriceLevel>, j: nat, os: seq<RestingOrder>, o: RestingOrder)
    requires Refines(levels, o.side, os) && Finds(levels, j, o.limitPrice)
    requires levels[j].total + o.remaining <= U64_MAX
    ensures Refines(levels[j := PriceLevel(o.limitPrice, levels[j].orders + [o], levels[j].total + o.remaining)],
                    o.side, os + [o])
  {
    var level' := PriceLevel(o.limitPrice, levels[j].orders + [o], levels[j].total + o.remaining);
    var levels' := levels[j := level'];
    forall n | 0 <= n < |levels|
      ensures LevelOf(levels'[n], o.side, os + [o])
    {
      if n == j {
        AtConcat(os, [o], o.side, o.limitPrice);
        TotalConcat(levels[j].orders, [o]);
      } else {
        LevelOfAfterRest(levels[n], o.side, os, o);
      }
    }
    forall k | 0 <= k < |os + [o]| && (os + [o])[k].side == o.side
      ensures HasLevel(levels', (os + [o])[k].limitPrice)
    {
      if k < |os| {
        var n :| 0 <= n < |levels| && levels[n].price == os[k].limitPrice;
        assert levels'[n].price == os[k].limitPrice;
      } else {
        assert levels'[j].price == o.limitPrice;
      }
    }
  }

  function Inserted(levels: seq<PriceLevel>, j: nat, level: PriceLevel): seq<PriceLevel>
    requires j <= |levels|
  {
    levels[..j] + [level] + levels[j..]
  }

  lemma SortedAfterInsert(levels: seq<PriceLevel>, side: Octet, j: nat, level: PriceLevel)
    requires Sorted(levels, side) && !HasLevel(levels, level.price) && j == LowerBound(levels, side, level.price)
    ensures Sorted(Inserted(levels, j, level), side)
  {
    forall n | j <= n < |levels|
      ensures Better(side, level.price, levels[n].price)
    {
      assert levels[n].price != level.price;
    }
  }

  lemma CoversAfterInsert(levels: seq<PriceLevel>, j: nat, level: PriceLevel, price: U64)
    requires j <= |levels| && (HasLevel(levels, price) || level.price == price)
    ensures HasLevel(Inserted(levels, j, level), price)
  {
    var levels' := Inserted(levels, j, level);
    if n :| 0 <= n < |levels| && levels[n].price == price {
      assert levels'[if n < j then n else n + 1].price == price;
    } else {
      assert levels'[j].price == price;
    }
  }

  lemma FirstOfLevel(levels: seq<PriceLevel>, os: seq<RestingOrder>, o: RestingOrder)
    requires Covers(levels, o.side, os) && !HasLevel(levels, o.limitPrice)
    ensures At(os + [o], o.side, o.limitPrice) == [o]
  {
    AtIsEmpty(os, o.side, o.limitPrice);
    AtConcat(os, [o], o.side, o.limitPrice);
  }

  lemma JoinedAsLevel(levels: seq<PriceLevel>, j: nat, os: seq<RestingOrder>, o: RestingOrder)
    requires Refines(levels, o.side, os) && !HasLevel(levels, o.limitPrice)
    requires j == LowerBound(levels, o.side, o.limitPrice)
    ensures Refines(Inserted(levels, j, PriceLevel(o.limitPrice, [o], o.remaining)), o.side, os + [o])
  {
    var level' := PriceLevel(o.limitPrice, [o], o.remaining);
    var levels' := Inserted(levels, j, level');
    SortedAfterInsert(levels, o.side, j, level');
    forall n | 0 <= n < |levels'|
      ensures LevelOf(levels'[n], o.side, os + [o])
    {
      if n == j {
        FirstOfLevel(levels, os, o);
      } else {
        var m := if n < j then n else n - 1;
        assert levels[m].price != o.limitPrice;
        LevelOfAfterRest(levels[m], o.side, os, o);
      }
    }
    forall k | 0 <= k < |os + [o]| && (os + [o])[k].side == o.side
      ensures HasLevel(levels', (os + [o])[k].limitPrice)
    {
      CoversAfterInsert(levels, j, level', (os + [o])[k].limitPrice);
    }
  }

  /** The total of the level found at `price`; none is found when no order rests there. */
  lemma {:induction false} LevelTotal(levels: seq<PriceLevel>, side: Octet, os: seq<RestingOrder>, price: U64)
    requires Refines(levels, side, os)
    ensures var j := LowerBound(levels, side, price);
            && (Finds(levels, j, price) <==> HasLevel(levels, price))
            && Total(At(os, side, price)) == if Finds(levels, j, price) then levels[j].total else 0
  {
    LowerBoundFinds(levels, side, price);
    if !HasLevel(levels, price) {
      AtIsEmpty(os, side, price);
    }
  }

  lemma {:induction false} JoinedRefines(levels: seq<PriceLevel>, os: seq<RestingOrder>, o: RestingOrder)
    requires Refines(levels, o.side, os)
    requires var j := LowerBound(levels, o.side, o.limitPrice);
             Finds(levels, j, o.limitPrice) ==> levels[j].total + o.remaining <= U64_MAX
    ensures Refines(Joined(levels, o), o.side, os + [o])
  {
    var j := LowerBound(levels, o.side, o.limitPrice);
    if Finds(levels, j, o.limitPrice) {
      JoinedToLevel(levels, j, os, o);
    } else {
      LowerBoundFinds(levels, o.side, o.limitPrice);
      JoinedAsLevel(levels, j, os, o);
    }
  }

  // ---------- What a preview sees ----------

  /** The makers an incoming order may trade with, in the order the levels list them. */
  function Makers(levels: seq<PriceLevel>, taker: NewLimitOrder): seq<RestingOrder> {
    if levels == [] || !Crosses(taker, levels[0].price) then []
    else levels[0].orders + Makers(levels[1..], taker)
  }

  /** How much of `remaining` the makers leave open, and after how many trades. */
  function Absorb(makers: seq<RestingOrder>, remaining: U64): (U64, nat) {
    if makers == [] || remaining == 0 then (remaining, 0)
    else
      var rest := Absorb(makers[1..], remaining - Min(remaining, makers[0].remaining));
      (rest.0, rest.1 + 1)
  }

  /** Filling the first maker completely leaves the other makers to the taker. */
  lemma MakersAfterFill(levels: seq<PriceLevel>, taker: NewLimitOrder, quantity: U64)
    requires levels != [] && levels[0].orders != [] && Crosses(taker, levels[0].price)
    requires quantity == levels[0].orders[0].remaining <= levels[0].total
    ensures Makers(Patch(levels, 0, Reduced(levels[0], 0, quantity)), taker) == Makers(levels, taker)[1..]
  {
    var (level', rest) := (Reduced(levels[0], 0, quantity), levels[1..]);
    assert level'.orders == levels[0].orders[1..];
    var levels' := Patch(levels, 0, level');
    if level'.orders == [] {
      assert levels' == rest;
      assert Makers(levels, taker) == levels[0].orders + Makers(rest, taker);
    } else {
      assert levels'[0] == level' && levels'[1..] == rest;
      assert Makers(levels', taker) == level'.orders + Makers(rest, taker);
    }
  }

  /** A ladder has a first maker exactly if the flat book has one, and it is the same. */
  lemma HeadOfLadder(levels: seq<PriceLevel>, side: Octet, os: seq<RestingOrder>)
    requires Refines(levels, side, os)
    ensures levels == [] <==> BestIndex(os, side).None?
    ensures levels != [] ==>
              && levels[0].orders != [] && levels[0].orders[0] == os[BestIndex(os, side).value]
              && levels[0].orders[0].limitPrice == levels[0].price
  {
    hide Rank;
    HeadIsBest(levels, side, os);
    if levels != [] {
      HeadRefines(levels, side, os, 0);
    }
  }

  /** The preview of a match over the levels foretells the match in the flat book. */
  lemma {:induction false} PreviewIsMatch(
    levels: seq<PriceLevel>, os: seq<RestingOrder>, taker: NewLimitOrder, remaining: U64)
    requires Refines(levels, Opposite(taker.side), os)
    requires AllOpen(os)
    ensures Absorb(Makers(levels, taker), remaining).0 == Match(os, taker, remaining).remaining
    ensures Absorb(Makers(levels, taker), remaining).1 == |Match(os, taker, remaining).fills|
    decreases remaining
  {
    hide Refines, Execute, IsBest, Better, AllOpen, Patch, Reduced, Crosses;
    HeadOfLadder(levels, Opposite(taker.side), os);
    if BestIndex(os, Opposite(taker.side)).Some? {
      IsOpen(os, BestIndex(os, Opposite(taker.side)).value);
    }
    if CanTrade(os, taker, remaining) {
      var i := BestIndex(os, Opposite(taker.side)).value;
      var quantity := Min(remaining, os[i].remaining);
      HeadRefines(levels, Opposite(taker.side), os, quantity);
      assert Makers(levels, taker)[0] == os[i];
      if quantity == os[i].remaining {
        ExecuteLeavesOpen(os, i, quantity);
        PreviewIsMatch(Patch(levels, 0, Reduced(levels[0], 0, quantity)), Execute(os, i, quantity),
                       taker, remaining - quantity);
        MakersAfterFill(levels, taker, quantity);
      } else {
        assert !CanTrade(Execute(os, i, quantity), taker, 0);
      }
    }
  }
}
