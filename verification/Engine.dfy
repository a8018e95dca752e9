// The matching engine on the heap book: time-in-force checks, submission, cancel and modify.
module Engine {
  import opened Orders
  import opened Ladders
  import opened Levels
  import opened Sides
  import opened Orderbooks
  import opened Invariants
  import Books
  import opened Clashes
  import opened Crossings

  method WouldCross(ob: Orderbook, taker: Order) returns (r: bool)
    requires ob.Valid()
    ensures r == Books.WouldCross(ob.M, taker)
  {
    if taker.side.BUY? {
      ob.Sell.Tops(ob.M.asks);
      r := ob.Sell.levels != [] && taker.price >= ob.Sell.levels[0].Price;
    } else if taker.side.SELL? {
      ob.Buy.Tops(ob.M.bids);
      r := ob.Buy.levels != [] && taker.price <= ob.Buy.levels[0].Price;
    } else {
      r := false;
    }
  }

  method CanFullyFill(ob: Orderbook, taker: Order) returns (r: bool)
    requires ob.Valid()
    ensures r == Books.CanFullyFill(ob.M, taker)
  {
    if taker.side.BUY? {
      r := SumsTo(ob.Sell, ob.M.asks, taker);
    } else if taker.side.SELL? {
      r := SumsTo(ob.Buy, ob.M.bids, taker);
    } else {
      r := false;
    }
  }

  // Walks the crossing levels until their orders cover the taker.
  method SumsTo(half: BookSide, ghost L: Ladder, taker: Order) returns (r: bool)
    requires half.Holds(L)
    ensures r == Books.Covers(Flat(Books.Crossing(L, taker)), taker.volume)
  {
    hide BookSide.HoldsAs, Books.Covers, Books.Crossing, Flat;
    half.Tops(L);
    var need, i := taker.volume, 0;
    assert L[0..] == L;
    while i < |half.levels|
      invariant i <= |half.levels| == |L|
      invariant Books.Covers(Flat(Books.Crossing(L, taker)), taker.volume) ==
        Books.Covers(Flat(Books.Crossing(L[i..], taker)), need)
    {
      var level := half.levels[i];
      half.Shape(L, i);
      CrossingStep(L, taker, i);
      if !Crosses(taker, level.Price) {
        break;
      }
      var done;
      need, done := SumQueue(level, need, L[i].queue, Flat(Books.Crossing(L[i + 1..], taker)));
      if done {
        return true;
      }
      i := i + 1;
    }
    CrossingEnds(L, taker, i, need);
    r := false;
  }

  // Subtracts the queue order by order; done when nothing is needed any more.
  method SumQueue(level: MatchEngineEntry, need: Qty, ghost q: seq<Order>, ghost rest: seq<Order>)
    returns (left: Qty, done: bool)
    requires level.Valid() && level.Orders.Queue == q
    ensures Books.Covers(q + rest, need) == (done || Books.Covers(rest, left))
  {
    hide Books.Covers;
    left := need;
    var n := level.Orders.head;
    ghost var k := 0;
    assert q[0..] == q;
    while n != null
      invariant k <= |q| && (n == null <==> k == |q|)
      invariant n != null ==> n == level.Orders.Nodes[k]
      invariant Books.Covers(q + rest, need) == Books.Covers(q[k..] + rest, left)
      decreases |q| - k
    {
      CoversStep(q, k, rest, left);
      left := left - n.order.volume;
      if left <= 0 {
        return left, true;
      }
      n, k := n.Next, k + 1;
    }
    assert q[k..] + rest == rest;
    done := false;
  }

  // Afterwards the ladders are those of the specification, and the book is valid exactly when
  // the order did not clash with an id that rests.
  method HandleLimitOrder(ob: Orderbook, newOrder: Order) returns (r: Books.Result)
    requires ob.Valid()
    modifies ob.Repr()
    ensures ob.Shelved() && fresh(ob.Repr() - old(ob.Repr()))
    ensures ob.M == Books.HandleLimit(old(ob.M), newOrder).book && r == Books.HandleLimit(old(ob.M), newOrder).result
    ensures ob.Valid() <==> !Clash(old(ob.M), newOrder)
  {
    hide Wf, Orderbook.Models, Orderbook.Shelved, Resting, Clash;
    var o := newOrder;
    HandleLimitKeeps(ob.M, o);
    ob.ModelsShelved();
    if o.tif.PostOnly? {
      var crossed := WouldCross(ob, o);
      if crossed {
        return Books.Result([], false, Books.REJECT_POST_ONLY_CROSSED);
      }
    }
    if o.tif.FOK? {
      var fillable := CanFullyFill(ob, o);
      if !fillable {
        return Books.Result([], false, Books.REJECT_FOK_UNFILLABLE);
      }
    }
    var matches, remain := ob.MatchTaker(o, false);
    ob.ModelsShelved();
    if o.tif.IOC? || o.tif.FOK? {
      ob.Drop(o, remain);
      ob.ModelsShelved();
    } else if remain > 0 {
      RestExact(ob.M, o.(volume := remain));
      var _ := ob.Add(o.(volume := remain));
    }
    r := Books.Result(matches, true, "");
  }

  method HandleMarketOrder(ob: Orderbook, newOrder: Order) returns (r: Books.Result)
    requires ob.Valid()
    modifies ob.Repr()
    ensures ob.Valid() && fresh(ob.Repr() - old(ob.Repr()))
    ensures ob.M == Books.HandleMarket(old(ob.M), newOrder).book && r == Books.HandleMarket(old(ob.M), newOrder).result
  {
    hide Wf, Orderbook.Models;
    var matches, remain := ob.MatchTaker(newOrder, true);
    ob.ModelsShelved();
    ob.Drop(newOrder, remain);
    r := Books.Result(matches, true, "");
  }

  method HandleStopLimitOrder(ob: Orderbook, order: Order) returns (r: Books.Result)
    requires ob.Valid()
    modifies ob.Repr()
    ensures ob.Shelved() && fresh(ob.Repr() - old(ob.Repr()))
    ensures ob.M == Books.HandleStopLimit(old(ob.M), order).book && r == Books.HandleStopLimit(old(ob.M), order).result
    ensures ob.Valid() <==> !(IsTriggered(order, 0) && Clash(old(ob.M), order))
  {
    hide Wf, Orderbook.Models, Orderbook.Shelved, Clash, Books.HandleLimit;
    if IsTriggered(order, 0) {
      r := HandleLimitOrder(ob, order);
    } else {
      ob.ModelsShelved();
      ob.AddConditionalOrder(order);
      ob.ModelsShelved();
      r := Books.Result([], true, "");
    }
  }

  method MatchAndAddNewOrder(ob: Orderbook, newOrder: Order) returns (r: Books.Result)
    requires ob.Valid()
    modifies ob.Repr()
    ensures ob.Shelved() && fresh(ob.Repr() - old(ob.Repr()))
    ensures ob.M == Books.Submit(old(ob.M), newOrder).book && r == Books.Submit(old(ob.M), newOrder).result
    ensures ob.Valid() <==> !SubmitClash(old(ob.M), newOrder)
  {
    hide Wf, Orderbook.Models, Orderbook.Shelved, Clash, Books.HandleLimit, Books.HandleMarket, Orderbook.Valid;
    assert ob.Shelved() by { ValidShelved(ob); }
    var o := Normalize(newOrder);
    match o.kind {
      case LIMIT => r := HandleLimitOrder(ob, o);
      case MARKET =>
        r := HandleMarketOrder(ob, o);
        ValidShelved(ob);
      case STOP_LIMIT => r := HandleStopLimitOrder(ob, o);
      case OtherType(_) =>
        r := Books.Result([], false, Books.REJECT_UNSUPPORTED_TYPE + ": " + Books.KindText(o.kind));
    }
  }

  lemma ValidShelved(ob: Orderbook)
    requires ob.Valid()
    ensures ob.Shelved()
  {
    ob.ModelsShelved();
  }

  method CancelOrder(ob: Orderbook, targetOrderID: int) returns (err: Books.Error)
    requires ob.Valid()
    modifies ob.Repr()
    ensures ob.Valid() && fresh(ob.Repr() - old(ob.Repr()))
    ensures (ob.M, err) == Books.Cancel(old(ob.M), targetOrderID)
  {
    err := ob.Cancel(targetOrderID);
  }

  // The book stays valid exactly when no negative volume is asked for at the resting price: the
  // resubmission never clashes, because the cancel has freed its id.
  method ModifyOrder(ob: Orderbook, orderID: int, newPrice: Px, newVolume: Qty) returns (r: Books.Result)
    requires ob.Valid()
    modifies ob.Repr()
    ensures ob.Shelved() && fresh(ob.Repr() - old(ob.Repr()))
    ensures ob.M == Books.Modify(old(ob.M), orderID, newPrice, newVolume).book
    ensures r == Books.Modify(old(ob.M), orderID, newPrice, newVolume).result
    ensures ob.Valid() <==> ModifyAllowed(old(ob.M), orderID, newPrice, newVolume)
  {
    hide Wf, Orderbook.Models, Orderbook.Shelved, Books.Submit, Books.LookupIn, Normalize, SubmitClash;
    assert ob.Shelved() by { ValidShelved(ob); }
    var existing, ok := ob.LookupOrder(orderID);
    if !ok {
      return Books.Result([], false, Books.REJECT_MODIFY_NOT_FOUND);
    }
    CancelKeeps(ob.M, orderID);
    LookupLocates(ob.M, orderID);
    if newVolume == 0 {
      var _ := ob.Cancel(orderID);
      ob.ModelsShelved();
      return Books.Result([], true, "");
    }
    if newPrice == existing.price && newVolume < existing.volume {
      var err := ob.ReduceVolume(orderID, newVolume);
      ob.ModelsShelved();
      if !err.NoError? {
        return Books.Result([], false, Books.ErrorText(err));
      }
      return Books.Result([], true, "");
    }
    var renewed := existing.(price := newPrice, volume := newVolume);
    var err := ob.Cancel(orderID);
    ob.ModelsShelved();
    if !err.NoError? {
      return Books.Result([], false, Books.ErrorText(err));
    }
    SubmitKeeps(ob.M, renewed);
    r := MatchAndAddNewOrder(ob, renewed);
  }
}
