// Stop orders told in trigger and match prices: which submissions wait, which matches set a
// waiting order off, and what the walk over the waiting orders then submits.
module Stops {
  import opened Orders
  import opened Ladders
  import opened Matching
  import opened Books
  import opened Promotions
  import opened Takers

  // ---- which submissions wait ----

  // The order as the engine queues it.
  function Defaulted(o: Order): Order {
    o.(stp := if o.stp == STPNone && o.userID != 0 then CancelTaker else o.stp)
  }

  // A stop order is put aside, and nothing else happens, exactly when zero is beyond its trigger:
  // a buy with a negative trigger, a sell with a positive one, or neither buy nor sell. Any other
  // is handled at once as the limit order it becomes.
  lemma StopWaits(b: Book, o: Order)
    requires o.kind == STOP_LIMIT
    ensures !AtOnce(o) ==>
      Submit(b, o) == Outcome(b.(parked := b.parked + [Defaulted(o)]), Result([], true, ""))
    ensures AtOnce(o) ==> Submit(b, o) == HandleLimit(b, Defaulted(o)) && Submit(b, o).book.parked == b.parked
    ensures AtOnce(o) <==> (o.side == BUY && o.trigger >= 0) || (o.side == SELL && o.trigger <= 0)
  {
    if AtOnce(o) { LimitParksNothing(b, Defaulted(o)); }
  }

  lemma {:induction false} RecordParksNothing(b: Book, t: Order, f: seq<Fill>, price: Px)
    ensures Record(b, t, f, price).parked == b.parked
    decreases f
  {
  }

  lemma {:induction false} MatchingParksNothing(b: Book, t: Order, always: bool, remain: Qty)
    requires OnBook(t.side)
    ensures MatchLevels(b, t, always, remain).0.parked == b.parked
    decreases |SideOf(b, Opposite(t.side))|, remain > 0
  {
    hide Greedy, Put, SumQ;
    var L := SideOf(b, Opposite(t.side));
    if remain > 0 && L != [] && (always || Crosses(t, L[0].price)) {
      var (b1, r1) := LevelStep(b, t, remain);
      RecordParksNothing(b, t, Greedy(t, remain, L[0].queue).fills, L[0].price);
      MatchingParksNothing(b1, t, always, r1);
    }
  }

  lemma LimitParksNothing(b: Book, o: Order)
    ensures HandleLimit(b, o).book.parked == b.parked && HandleMarket(b, o).book.parked == b.parked
  {
    hide MatchLevels, Put, WouldCross, CanFullyFill, TradesSince;
    if OnBook(o.side) {
      MatchingParksNothing(b, o, false, o.volume);
      MatchingParksNothing(b, o, true, o.volume);
    }
  }

  // Only such a submission adds to the queue of stop orders, and nothing takes from it.
  lemma OnlyStopsWait(b: Book, op: Op)
    ensures Apply(b, op).book.parked == b.parked +
      (if op.New? && op.order.kind == STOP_LIMIT && !AtOnce(op.order) then [Defaulted(op.order)]
       else if op.ModifyOp? && Resubmits(b, op) && Resubmitted(b, op).kind == STOP_LIMIT && !AtOnce(Resubmitted(b, op))
       then [Defaulted(Resubmitted(b, op))] else [])
  {
    hide HandleLimit, HandleMarket, Put, Without, Resized, Lookup;
    assert b.parked + [] == b.parked;
    match op
    case New(o) => LimitParksNothing(b, Defaulted(o));
    case CancelOp(_) =>
    case ModifyOp(id, p, v) =>
      if Resubmits(b, op) { LimitParksNothing(Cancel(b, id).0, Defaulted(Resubmitted(b, op))); }
  }

  // A modify that submits its order again, and with what.
  predicate Resubmits(b: Book, op: Op)
    requires op.ModifyOp?
  {
    match Lookup(b, op.id)
    case None => false
    case Some(o) => op.volume != 0 && (op.price != o.price || op.volume >= o.volume)
  }

  function Resubmitted(b: Book, op: Op): Order
    requires op.ModifyOp? && Resubmits(b, op)
  {
    Lookup(b, op.id).value.(price := op.price, volume := op.volume)
  }

  // ---- what a walk submits ----

  // How many of the matches set the waiting order off: a buy those at its trigger or below, a
  // sell those at its trigger or above. An order of another type is set off by all.
  function Shots(o: Order, ms: seq<Match>): nat {
    if ms == [] then 0
    else if SetsOff(o, ms[0].price) then 1 + Shots(o, ms[1..])
    else Shots(o, ms[1..])
  }

  predicate SetsOff(o: Order, price: Px) {
    || o.kind != STOP_LIMIT
    || (o.side == BUY && price <= o.trigger)
    || (o.side == SELL && price >= o.trigger)
  }

  // The order submitted n times over as a limit order.
  function Again(b: Book, o: Order, n: nat): Book
    decreases n
  {
    if n == 0 then b else Again(HandleLimit(b, o).book, o, n - 1)
  }

  lemma {:induction false} PromotesPerShot(b: Book, o: Order, ms: seq<Match>)
    ensures PromoteOne(b, o, ms) == Again(b, o, Shots(o, ms))
    decreases ms
  {
    hide HandleLimit;
    if ms != [] { PromotesPerShot(if IsTriggered(o, ms[0].price) then HandleLimit(b, o).book else b, o, ms[1..]); }
  }

  // The walk takes the waiting orders oldest first, each once per match that sets it off.
  lemma {:induction false} PromotesInTurn(b: Book, parked: seq<Order>, o: Order, ms: seq<Match>)
    ensures Promote(b, [], ms) == b
    ensures Promote(b, parked + [o], ms) == Again(Promote(b, parked, ms), o, Shots(o, ms))
    decreases parked
  {
    hide PromoteOne, Again, Shots;
    if parked == [] {
      assert [o][1..] == [] && [] + [o] == [o];
      PromotesPerShot(b, o, ms);
      assert Promote(PromoteOne(b, o, ms), [], ms) == PromoteOne(b, o, ms);
    } else {
      assert (parked + [o])[1..] == parked[1..] + [o];
      PromotesInTurn(PromoteOne(b, parked[0], ms), parked[1..], o, ms);
    }
  }

  lemma {:induction false} AgainParksNothing(b: Book, o: Order, n: nat)
    ensures Again(b, o, n).parked == b.parked
    decreases n
  {
    hide HandleLimit;
    if n > 0 {
      LimitParksNothing(b, o);
      AgainParksNothing(HandleLimit(b, o).book, o, n - 1);
    }
  }

  lemma {:induction false} WalkParksNothing(b: Book, parked: seq<Order>, ms: seq<Match>)
    ensures Promote(b, parked, ms).parked == b.parked
    decreases parked
  {
    hide PromoteOne, Again;
    if parked != [] {
      PromotesPerShot(b, parked[0], ms);
      AgainParksNothing(b, parked[0], Shots(parked[0], ms));
      WalkParksNothing(PromoteOne(b, parked[0], ms), parked[1..], ms);
    }
  }

  lemma {:induction false} NoMatchNoWalk(b: Book, parked: seq<Order>)
    ensures Promote(b, parked, []) == b
    decreases parked
  {
    if parked != [] { NoMatchNoWalk(b, parked[1..]); }
  }

  // The live market walks after a submission, over the matches of that submission and the orders
  // then waiting. A cancel or a modify sets nothing off, even when the modify trades, and no stop
  // order leaves the queue.
  lemma LiveWalks(b: Book, op: Op)
    ensures var r := Apply(b, op);
      Live(b, op) == if op.New? then Promote(r.book, r.book.parked, r.result.matches) else r.book
    ensures Live(b, op).parked == Apply(b, op).book.parked
  {
    hide Submit, Cancel, Modify, Promote;
    var r := Apply(b, op);
    NoMatchNoWalk(r.book, r.book.parked);
    WalkParksNothing(r.book, r.book.parked, r.result.matches);
    if op.New? && !r.result.accepted { RefusedTradesNothing(b, op.order); }
  }

  lemma RefusedTradesNothing(b: Book, o: Order)
    ensures !Submit(b, o).result.accepted ==> Submit(b, o).result.matches == []
  {
    hide MatchTaker, WouldCross, CanFullyFill;
  }
}
