// What a cancel undoes on the heap.
module Undo {
  import opened Orders
  import opened Ladders
  import opened Sides
  import opened Orderbooks
  import opened Books
  import opened Invariants
  import Laws

  // Cancelling an order just added brings back both slices of levels, both price indexes and the
  // order index, each with the same objects, and every queue.
  method AddThenCancel(ob: Orderbook, order: Order) returns (err: Error)
    requires ob.Valid() && OnBook(order.side) && order.volume > 0 && !Resting(ob.M, order.id)
    modifies ob.Repr()
    ensures ob.Valid() && err == NoError
    ensures ob.Buy.levels == old(ob.Buy.levels) && ob.Sell.levels == old(ob.Sell.levels)
    ensures ob.Buy.byPrice == old(ob.Buy.byPrice) && ob.Sell.byPrice == old(ob.Sell.byPrice)
    ensures ob.orderIndex == old(ob.orderIndex)
    ensures ob.M.bids == old(ob.M.bids) && ob.M.asks == old(ob.M.asks)
  {
    hide Wf, Orderbook.Models, Orderbook.Shelved, Resting, Rest, Cancel, BookSide.Grew, BookSide.Shrank, QueueAt;
    Laws.AddThenCancel(ob.M, order);
    ob.IndexIsLookup(order.id);
    ob.PriceIndexed(order.side, order.price);
    ghost var half := ob.Half(order.side);
    ghost var ls, index := half.levels, half.byPrice;
    ghost var b, added := ob.M, order.price !in index;
    ob.ModelsShelved();
    var node := ob.Add(order);
    ghost var ls1, index1 := half.levels, half.byPrice;
    err := ob.Cancel(order.id);
    assert SideOf(ob.M, order.side) == SideOf(b, order.side);
    BookSide.GrewShrank(ls, index, ls1, index1, half.levels, half.byPrice, node.Level, added);
  }
}
