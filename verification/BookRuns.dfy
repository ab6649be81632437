/** Laws of whole command sequences on the reference book. */
module BookRuns {
  import opened Domain
  import opened FlatBook
  import opened BookLaws

  function Apply(b: Book, c: Command): (Book, CommandResult) {
    match c
    case SubmitLimitOrder(order) => var r := Submit(b, order); (r.0, SubmitDone(r.1))
    case CancelOrder(id) => var r := Cancel(b, id); (r.0, CancelDone(r.1))
  }

  function Run(b: Book, cs: seq<Command>): (r: (Book, seq<CommandResult>))
    ensures |r.1| == |cs|
  {
    if cs == [] then (b, [])
    else
      var before := Run(b, cs[..|cs| - 1]);
      var last := Apply(before.0, cs[|cs| - 1]);
      (last.0, before.1 + [last.1])
  }

  lemma {:induction false} RunConcat(b: Book, xs: seq<Command>, ys: seq<Command>)
    ensures Run(b, xs + ys).0 == Run(Run(b, xs).0, ys).0
    ensures Run(b, xs + ys).1 == Run(b, xs).1 + Run(Run(b, xs).0, ys).1
  {
    if ys == [] {
      assert xs + ys == xs;
    } else {
      assert (xs + ys)[..|xs + ys| - 1] == xs + ys[..|ys| - 1];
      RunConcat(b, xs, ys[..|ys| - 1]);
    }
  }

  /** The result of a command in a run is the one the book gives that the commands before it have left. */
  lemma {:induction false} RunResult(b: Book, cs: seq<Command>, i: nat)
    requires i < |cs|
    ensures Run(b, cs).1[i] == Apply(Run(b, cs[..i]).0, cs[i]).1
  {
    hide Apply;
    if i < |cs| - 1 {
      RunResult(b, cs[..|cs| - 1], i);
      assert cs[..|cs| - 1][..i] == cs[..i];
    }
  }

  lemma ApplyKeepsValid(b: Book, c: Command)
    requires Valid(b)
    ensures Valid(Apply(b, c).0)
  {
    match c
    case SubmitLimitOrder(order) => SubmitKeepsValid(b, order);
    case CancelOrder(id) => CancelKeepsValid(b, id);
  }

  /** Every reachable book is well-formed: uncrossed, in arrival order, within 64 bits. */
  lemma {:induction false} RunKeepsValid(b: Book, cs: seq<Command>)
    requires Valid(b)
    ensures Valid(Run(b, cs).0)
  {
    if cs != [] {
      RunKeepsValid(b, cs[..|cs| - 1]);
      ApplyKeepsValid(Run(b, cs[..|cs| - 1]).0, cs[|cs| - 1]);
    }
  }

  // ---------- Conservation of quantity ----------

  // The laws below are about everybody (`None`) or about one order id.
  type Who = Option<U64>

  function Share(who: Who, id: U64, quantity: nat): nat {
    if who.None? || who.value == id then quantity else 0
  }

  function Open(os: seq<RestingOrder>, who: Who): nat {
    if os == [] then 0 else Share(who, os[0].id, os[0].remaining) + Open(os[1..], who)
  }

  function FilledAsMaker(fills: seq<Fill>, who: Who): nat {
    if fills == [] then 0
    else Share(who, fills[0].makerId, fills[0].quantity) + FilledAsMaker(fills[1..], who)
  }

  /** The quantity traded, counted once for the maker and once for the taker. */
  function Involving(trades: seq<Trade>, who: Who): nat {
    if trades == [] then 0
    else
      var t := trades[|trades| - 1];
      Involving(trades[..|trades| - 1], who)
      + Share(who, t.makerOrderId, t.quantity) + Share(who, t.takerOrderId, t.quantity)
  }

  function TradesOf(r: CommandResult): seq<Trade> {
    match r
    case SubmitDone(s) => s.trades
    case CancelDone(_) => []
  }

  function AllTrades(rs: seq<CommandResult>): seq<Trade> {
    if rs == [] then [] else AllTrades(rs[..|rs| - 1]) + TradesOf(rs[|rs| - 1])
  }

  function AcceptedBy(c: Command, r: CommandResult, who: Who): nat {
    if c.SubmitLimitOrder? && r.SubmitDone? && r.submit.status.Accepted?
    then Share(who, c.order.id, c.order.quantity) else 0
  }

  function WithdrawnBy(c: Command, r: CommandResult, who: Who): nat {
    if c.CancelOrder? && r.CancelDone? then Share(who, c.orderId, r.cancel.cancelledQuantity) else 0
  }

  function AcceptedIn(cs: seq<Command>, rs: seq<CommandResult>, who: Who): nat
    requires |cs| == |rs|
  {
    if cs == [] then 0
    else AcceptedIn(cs[..|cs| - 1], rs[..|cs| - 1], who) + AcceptedBy(cs[|cs| - 1], rs[|cs| - 1], who)
  }

  function WithdrawnIn(cs: seq<Command>, rs: seq<CommandResult>, who: Who): nat
    requires |cs| == |rs|
  {
    if cs == [] then 0
    else WithdrawnIn(cs[..|cs| - 1], rs[..|cs| - 1], who) + WithdrawnBy(cs[|cs| - 1], rs[|cs| - 1], who)
  }

  lemma {:induction false} OpenConcat(a: seq<RestingOrder>, b: seq<RestingOrder>, who: Who)
    ensures Open(a + b, who) == Open(a, who) + Open(b, who)
  {
    if a == [] {
      assert a + b == b;
    } else {
      assert (a + b)[1..] == a[1..] + b;
      OpenConcat(a[1..], b, who);
    }
  }

  lemma {:induction false} InvolvingConcat(a: seq<Trade>, b: seq<Trade>, who: Who)
    ensures Involving(a + b, who) == Involving(a, who) + Involving(b, who)
  {
    if b == [] {
      assert a + b == a;
    } else {
      assert (a + b)[..|a + b| - 1] == a + b[..|b| - 1];
      InvolvingConcat(a, b[..|b| - 1], who);
    }
  }

  lemma OpenAfterExecute(os: seq<RestingOrder>, i: nat, quantity: U64, who: Who)
    requires i < |os| && quantity <= os[i].remaining
    ensures Open(Execute(os, i, quantity), who) == Open(os, who) - Share(who, os[i].id, quantity)
  {
    var m := Leftover(os[i], quantity);
    Around(os, i);
    OpenConcat(os[..i] + [os[i]], os[i + 1..], who);
    OpenConcat(os[..i], [os[i]], who);
    OpenConcat(os[..i] + m, os[i + 1..], who);
    OpenConcat(os[..i], m, who);
  }

  /** A match takes from the makers exactly what it gives to the taker. */
  lemma {:induction false} MatchConserves(os: seq<RestingOrder>, taker: NewLimitOrder, remaining: U64, who: Who)
    ensures var m := Match(os, taker, remaining);
            && Open(m.orders, who) == Open(os, who) - FilledAsMaker(m.fills, who)
            && remaining - m.remaining == FilledAsMaker(m.fills, None)
    decreases remaining
  {
    hide IsBest, Better, Crosses, Execute, Open;
    if CanTrade(os, taker, remaining) {
      var i := BestIndex(os, Opposite(taker.side)).value;
      var quantity := Min(remaining, os[i].remaining);
      OpenAfterExecute(os, i, quantity, who);
      MatchConserves(Execute(os, i, quantity), taker, remaining - quantity, who);
    }
  }

  lemma {:induction false} FilledConcat(a: seq<Fill>, b: seq<Fill>, who: Who)
    ensures FilledAsMaker(a + b, who) == FilledAsMaker(a, who) + FilledAsMaker(b, who)
  {
    if a == [] {
      assert a + b == b;
    } else {
      assert (a + b)[1..] == a[1..] + b;
      FilledConcat(a[1..], b, who);
    }
  }

  lemma {:induction false} NumberInvolves(fills: seq<Fill>, taker: U64, issued: nat, who: Who)
    requires issued + |fills| <= U64_MAX
    ensures Involving(Number(fills, taker, issued), who)
         == FilledAsMaker(fills, who) + Share(who, taker, FilledAsMaker(fills, None))
  {
    if fills != [] {
      var front, last := fills[..|fills| - 1], fills[|fills| - 1];
      var trades := Number(fills, taker, issued);
      assert trades[..|fills| - 1] == Number(front, taker, issued);
      NumberInvolves(front, taker, issued, who);
      assert fills == front + [last];
      FilledConcat(front, [last], who);
      FilledConcat(front, [last], None);
    }
  }

  lemma SettledConserves(b: Book, o: NewLimitOrder, m: MatchOutcome, who: Who)
    requires Shortage(b, o, m).None? && m == Match(b.orders, o, o.quantity)
    ensures Open(b.orders, who) + Share(who, o.id, o.quantity)
         == Open(Settled(b, o, m).orders, who) + Involving(Acceptance(b, o, m).trades, who)
  {
    MatchConserves(b.orders, o, o.quantity, who);
    NumberInvolves(m.fills, o.id, b.issued, who);
    if m.remaining > 0 {
      OpenConcat(m.orders, [Remainder(b, o, m.remaining)], who);
    }
  }

  /** `b` turns into `b'` when `c` is answered `r`: no quantity appears or is lost. */
  ghost predicate Conserves(b: Book, c: Command, r: CommandResult, b': Book, who: Who) {
    Open(b.orders, who) + AcceptedBy(c, r, who)
    == Open(b'.orders, who) + WithdrawnBy(c, r, who) + Involving(TradesOf(r), who)
  }

  lemma CancelConserves(b: Book, id: U64, who: Who)
    ensures Conserves(b, CancelOrder(id), CancelDone(Cancel(b, id).1), Cancel(b, id).0, who)
  {
    var i := IndexOf(b.orders, id);
    if i.Some? {
      OpenAfterExecute(b.orders, i.value, b.orders[i.value].remaining, who);
    }
  }

  lemma ApplyConserves(b: Book, c: Command, who: Who)
    ensures Conserves(b, c, Apply(b, c).1, Apply(b, c).0, who)
  {
    match c
    case SubmitLimitOrder(o) =>
      var m := Match(b.orders, o, o.quantity);
      if Defect(b, o).None? && Shortage(b, o, m).None? {
        SettledConserves(b, o, m, who);
      }
    case CancelOrder(id) => CancelConserves(b, id, who);
  }

  /** Over every run, for one order or for all: accepted = still open + cancelled + traded. */
  lemma {:induction false} RunConserves(b: Book, cs: seq<Command>, who: Who)
    ensures Open(b.orders, who) + AcceptedIn(cs, Run(b, cs).1, who)
         == Open(Run(b, cs).0.orders, who)
            + WithdrawnIn(cs, Run(b, cs).1, who) + Involving(AllTrades(Run(b, cs).1), who)
  {
    if cs != [] {
      var front := cs[..|cs| - 1];
      var before := Run(b, front);
      RunConserves(b, front, who);
      ApplyConserves(before.0, cs[|cs| - 1], who);
      assert Run(b, cs).1[..|cs| - 1] == before.1;
      InvolvingConcat(AllTrades(before.1), TradesOf(Apply(before.0, cs[|cs| - 1]).1), who);
    }
  }

  /** The book-wide law: every accepted unit is open, cancelled, or in a trade (which takes two). */
  lemma {:induction false} QuantityIsConserved(cs: seq<Command>)
    ensures AcceptedIn(cs, Run(EMPTY, cs).1, None)
         == Total(Run(EMPTY, cs).0.orders)
            + WithdrawnIn(cs, Run(EMPTY, cs).1, None) + 2 * Volume(AllTrades(Run(EMPTY, cs).1))
  {
    RunConserves(EMPTY, cs, None);
    OpenIsTotal(Run(EMPTY, cs).0.orders);
    InvolvingIsTwiceVolume(AllTrades(Run(EMPTY, cs).1));
  }

  function Volume(trades: seq<Trade>): nat {
    if trades == [] then 0 else Volume(trades[..|trades| - 1]) + trades[|trades| - 1].quantity
  }

  lemma {:induction false} OpenIsTotal(os: seq<RestingOrder>)
    ensures Open(os, None) == Total(os)
  {
    if os != [] {
      OpenIsTotal(os[1..]);
    }
  }

  lemma {:induction false} InvolvingIsTwiceVolume(trades: seq<Trade>)
    ensures Involving(trades, None) == 2 * Volume(trades)
  {
    if trades != [] {
      InvolvingIsTwiceVolume(trades[..|trades| - 1]);
    }
  }

  // ---------- Trade ids ----------

  lemma ApplyNumbersTrades(b: Book, c: Command)
    ensures Apply(b, c).0.issued == b.issued + |TradesOf(Apply(b, c).1)|
    ensures forall k :: 0 <= k < |TradesOf(Apply(b, c).1)| ==>
                          TradesOf(Apply(b, c).1)[k].id == b.issued + k + 1
  {
  }

  /** Over every run the trades are numbered on from the last one, without gap or repeat. */
  lemma {:induction false} RunNumbersTrades(b: Book, cs: seq<Command>)
    ensures Run(b, cs).0.issued == b.issued + |AllTrades(Run(b, cs).1)|
    ensures forall k :: 0 <= k < |AllTrades(Run(b, cs).1)| ==>
                          AllTrades(Run(b, cs).1)[k].id == b.issued + k + 1
  {
    if cs != [] {
      RunNumbersTrades(b, cs[..|cs| - 1]);
      ApplyNumbersTrades(Run(b, cs[..|cs| - 1]).0, cs[|cs| - 1]);
      assert Run(b, cs).1[..|cs| - 1] == Run(b, cs[..|cs| - 1]).1;
    }
  }

  /**
   What an accepted order gets: trades worth the executed quantity, and a place behind all
   other orders for exactly the rest of it, or none if nothing is left.
   */
  lemma {:induction false} AcceptedOrder(b: Book, o: NewLimitOrder)
    requires Valid(b) && Submit(b, o).1.status.Accepted?
    ensures var (b', r) := Submit(b, o);
            && r.executedQuantity == Volume(r.trades)
            && IndexOf(b'.orders, o.id)
               == (if r.restingQuantity == 0 then None else Some(|b'.orders| - 1))
            && (r.restingQuantity > 0 ==>
                  b'.orders[|b'.orders| - 1]
                  == RestingOrder(o.id, o.side, o.limitPrice, o.quantity, r.restingQuantity, b.arrivals + 1))
  {
    hide Match, Valid, ValidOrders, Volume, Involving, FilledAsMaker, Number;
    var m := Match(b.orders, o, o.quantity);
    MatchConserves(b.orders, o, o.quantity, None);
    NumberInvolves(m.fills, o.id, b.issued, None);
    InvolvingIsTwiceVolume(Acceptance(b, o, m).trades);
    NewIdIsNotResting(b, o, m);
  }

  lemma NewIdIsNotResting(b: Book, o: NewLimitOrder, m: MatchOutcome)
    requires Valid(b) && o.id !in b.seen && m == Match(b.orders, o, o.quantity)
    ensures IndexOf(m.orders, o.id).None?
  {
    hide Match;
    MatchKeepsValid(b.orders, b.seen, b.arrivals, o, o.quantity);
  }

  // ---------- Ids ever accepted ----------

  /** Some command before accepted an order with this id; whether it still rests does not matter. */
  predicate WasAccepted(cs: seq<Command>, rs: seq<CommandResult>, id: U64)
    requires |cs| == |rs|
  {
    exists i :: 0 <= i < |cs| && Accepts(cs[i], rs[i], id)
  }

  predicate Accepts(c: Command, r: CommandResult, id: U64) {
    c.SubmitLimitOrder? && c.order.id == id && r.SubmitDone? && r.submit.status.Accepted?
  }

  lemma ApplySees(b: Book, c: Command, id: U64)
    ensures id in Apply(b, c).0.seen <==> id in b.seen || Accepts(c, Apply(b, c).1, id)
  {
    hide Match;
  }

  /** The book remembers exactly the ids it has ever accepted. */
  lemma {:induction false} SeenIsAccepted(cs: seq<Command>, id: U64)
    ensures id in Run(EMPTY, cs).0.seen <==> WasAccepted(cs, Run(EMPTY, cs).1, id)
  {
    if cs != [] {
      var (front, last) := (cs[..|cs| - 1], cs[|cs| - 1]);
      var before := Run(EMPTY, front);
      SeenIsAccepted(front, id);
      ApplySees(before.0, last, id);
      var rs := Run(EMPTY, cs).1;
      assert rs == before.1 + [Apply(before.0, last).1];
      hide Run, Apply, Accepts;
      assert Accepts(cs[|cs| - 1], rs[|cs| - 1], id) || WasAccepted(front, before.1, id) <==> WasAccepted(cs, rs, id);
    }
  }

  // ---------- The history of a resting order ----------

  /** The commands so far account for the size of every resting order, and mention no unseen id. */
  ghost predicate Recorded(cs: seq<Command>) {
    var (b, rs) := Run(EMPTY, cs);
    && (forall i :: 0 <= i < |b.orders| ==>
          && AcceptedIn(cs, rs, Some(b.orders[i].id)) == b.orders[i].original
          && WithdrawnIn(cs, rs, Some(b.orders[i].id)) == 0)
    && (forall id: U64 :: id !in b.seen ==>
          AcceptedIn(cs, rs, Some(id)) == 0 && WithdrawnIn(cs, rs, Some(id)) == 0)
  }

  /** The sums of a run, one command later. */
  lemma RunStep(b: Book, cs: seq<Command>, c: Command)
    ensures Run(b, cs + [c]).0 == Apply(Run(b, cs).0, c).0
    ensures Run(b, cs + [c]).1 == Run(b, cs).1 + [Apply(Run(b, cs).0, c).1]
    ensures forall who: Who :: AcceptedIn(cs + [c], Run(b, cs + [c]).1, who)
                            == AcceptedIn(cs, Run(b, cs).1, who) + AcceptedBy(c, Apply(Run(b, cs).0, c).1, who)
    ensures forall who: Who :: WithdrawnIn(cs + [c], Run(b, cs + [c]).1, who)
                            == WithdrawnIn(cs, Run(b, cs).1, who) + WithdrawnBy(c, Apply(Run(b, cs).0, c).1, who)
  {
    assert (cs + [c])[..|cs|] == cs;
    assert Run(b, cs + [c]).1[..|cs|] == Run(b, cs).1;
  }

  lemma SubmitIsRecorded(cs: seq<Command>, o: NewLimitOrder)
    requires Recorded(cs) && Valid(Run(EMPTY, cs).0)
    ensures Recorded(cs + [SubmitLimitOrder(o)])
  {
    hide Run, AcceptedIn, WithdrawnIn, Match;
    var b := Run(EMPTY, cs).0;
    RunStep(EMPTY, cs, SubmitLimitOrder(o));
    var m := Match(b.orders, o, o.quantity);
    if Defect(b, o).None? && Shortage(b, o, m).None? {
      var b' := Settled(b, o, m);
      forall k | 0 <= k < |m.orders|
        ensures m.orders[k].id in b.seen
        ensures AcceptedIn(cs, Run(EMPTY, cs).1, Some(m.orders[k].id)) == m.orders[k].original
        ensures WithdrawnIn(cs, Run(EMPTY, cs).1, Some(m.orders[k].id)) == 0
      {
        var j := MatchOrigin(b.orders, o, o.quantity, k);
      }
    }
  }

  lemma CancelIsRecorded(cs: seq<Command>, id: U64)
    requires Recorded(cs) && Valid(Run(EMPTY, cs).0)
    ensures Recorded(cs + [CancelOrder(id)])
  {
    var b := Run(EMPTY, cs).0;
    RunStep(EMPTY, cs, CancelOrder(id));
    var i := IndexOf(b.orders, id);
    if i.Some? {
      ExecuteOrigin(b.orders, i.value, b.orders[i.value].remaining);
    }
  }

  lemma {:induction false} RunIsRecorded(cs: seq<Command>)
    ensures Recorded(cs)
  {
    if cs != [] {
      var front := cs[..|cs| - 1];
      RunIsRecorded(front);
      RunKeepsValid(EMPTY, front);
      assert cs == front + [cs[|cs| - 1]];
      match cs[|cs| - 1]
      case SubmitLimitOrder(o) => SubmitIsRecorded(front, o);
      case CancelOrder(id) => CancelIsRecorded(front, id);
    }
  }

  /** What is missing from a resting order is exactly what it traded, as maker or as taker. */
  lemma {:induction false} RestingOrderHistory(cs: seq<Command>, i: nat)
    requires i < |Run(EMPTY, cs).0.orders|
    ensures var o := Run(EMPTY, cs).0.orders[i];
            o.original - o.remaining == Involving(AllTrades(Run(EMPTY, cs).1), Some(o.id))
  {
    var os := Run(EMPTY, cs).0.orders;
    RunConserves(EMPTY, cs, Some(os[i].id));
    RunIsRecorded(cs);
    RunKeepsValid(EMPTY, cs);
    OpenOfOne(os, i);
  }

  lemma {:induction false} OpenOfNone(os: seq<RestingOrder>, id: U64)
    requires forall j :: 0 <= j < |os| ==> os[j].id != id
    ensures Open(os, Some(id)) == 0
  {
    if os != [] {
      OpenOfNone(os[1..], id);
    }
  }

  lemma OpenOfOne(os: seq<RestingOrder>, i: nat)
    requires DistinctIds(os) && i < |os|
    ensures Open(os, Some(os[i].id)) == os[i].remaining
  {
    Around(os, i);
    OpenConcat(os[..i] + [os[i]], os[i + 1..], Some(os[i].id));
    OpenConcat(os[..i], [os[i]], Some(os[i].id));
    OpenOfNone(os[..i], os[i].id);
    OpenOfNone(os[i + 1..], os[i].id);
  }
}
