// The order book on the heap. `M` is its value: every method is proved to take M from the old
// value to the one that the corresponding function of module Books gives.
module Orderbooks {
  import opened Orders
  import opened Ladders
  import opened Levels
  import opened Sides
  import opened Matching
  import opened Books
  import opened Invariants
  import opened Tapes

  class Orderbook {
    const Symbol: string
    const Buy: BookSide
    const Sell: BookSide
    var ConditionalOrders: seq<Order>
    var seqNo: nat
    var orderIndex: map<int, OrderNode>

    // The L2 callback: whether one is installed, and what it has been given.
    var l2: bool
    var sent: seq<BookDelta>

    ghost var M: Book

    ghost function Repr(): set<object>
      reads this, Buy, Sell
    {
      {this, Buy, Sell} + Buy.Owned + Sell.Owned
    }

    function Half(s: Side): BookSide {
      if s.BUY? then Buy else Sell
    }

    function OtherHalf(s: Side): BookSide {
      if s.BUY? then Sell else Buy
    }

    // Two halves that share no objects with each other or with the book.
    ghost predicate Apart(mine: BookSide, other: BookSide)
      reads mine, other
    {
      && this !in mine.Owned && this !in other.Owned && mine != other
      && mine !in other.Owned && other !in mine.Owned && mine.Owned !! other.Owned
    }

    ghost predicate Counted(b: Book)
      reads this
    {
      && Symbol == b.symbol && ConditionalOrders == b.parked
      && seqNo == b.seqNo && l2 == b.sink && sent == DeltasOf(b.tape)
    }

    ghost function Nodes(): set<OrderNode>
      reads this, Buy, Sell, Buy.Owned, Sell.Owned
    {
      Buy.Resting() + Sell.Resting()
    }

    // The id index holds exactly the resting nodes.
    static ghost predicate Indexes(index: map<int, OrderNode>, nodes: set<OrderNode>)
      reads nodes`order
    {
      && (forall n | n in nodes :: n.order.id in index && index[n.order.id] == n)
      && (forall id | id in index :: index[id] in nodes && index[id].order.id == id)
    }

    // The two halves hold the ladders L and R, and the index covers both.
    ghost predicate Holding(index: map<int, OrderNode>, mine: BookSide, other: BookSide, L: Ladder, R: Ladder)
      reads mine, other, mine.Owned, other.Owned
    {
      && Apart(mine, other) && mine.Holds(L) && other.Holds(R)
      && Indexes(index, mine.Resting() + other.Resting())
    }

    lemma Swapped(mine: BookSide, other: BookSide, L: Ladder, R: Ladder)
      requires Holding(orderIndex, mine, other, L, R)
      ensures Holding(orderIndex, other, mine, R, L)
    {
      assert mine.Resting() + other.Resting() == other.Resting() + mine.Resting();
    }

    lemma Separate(mine: BookSide, other: BookSide, L: Ladder, R: Ladder)
      requires Holding(orderIndex, mine, other, L, R)
      ensures this !in mine.Owned && this !in other.Owned && mine != other
      ensures mine !in other.Owned && other !in mine.Owned && mine.Owned !! other.Owned
    {
    }

    // The two halves hold the ladders L and R; nothing is said of the index.
    ghost predicate Halves(mine: BookSide, other: BookSide, L: Ladder, R: Ladder)
      reads mine, other, mine.Owned, other.Owned
    {
      Apart(mine, other) && mine.Holds(L) && other.Holds(R)
    }

    lemma HalvesApart(mine: BookSide, other: BookSide, L: Ladder, R: Ladder)
      requires Halves(mine, other, L, R)
      ensures this !in mine.Owned && this !in other.Owned && mine != other
      ensures mine !in other.Owned && other !in mine.Owned && mine.Owned !! other.Owned
      ensures Halves(other, mine, R, L)
    {
    }

    // The ladders and counters are those of M, also when an id rests twice and the index can no
    // longer hold all resting nodes.
    ghost predicate Shelved()
      reads this, Buy, Sell, Buy.Owned, Sell.Owned
    {
      Buy.side == BUY && Sell.side == SELL && Halves(Buy, Sell, M.bids, M.asks) && Counted(M)
    }

    // Everything but the conditions that hold only between operations.
    ghost predicate Models()
      reads this, Buy, Sell, Buy.Owned, Sell.Owned
    {
      && Buy.side == BUY && Sell.side == SELL
      && Holding(orderIndex, Buy, Sell, M.bids, M.asks) && Counted(M)
    }

    ghost predicate Valid()
      reads this, Buy, Sell, Buy.Owned, Sell.Owned
    {
      Models() && Wf(M)
    }

    lemma ModelsShelved()
      requires Models()
      ensures Shelved()
    {
    }

    constructor (symbol: string)
      ensures Valid() && fresh(Repr()) && M == Empty(symbol)
    {
      Symbol := symbol;
      Buy := new BookSide(BUY);
      Sell := new BookSide(SELL);
      ConditionalOrders, seqNo, orderIndex := [], 0, map[];
      l2, sent := false, [];
      M := Empty(symbol);
      new;
      EmptyWf(symbol);
    }

    method SetL2Sink(on: bool)
      requires Valid()
      modifies `l2, `M
      ensures Valid() && M == old(M).(sink := on)
    {
      hide Holding;
      Separate(Buy, Sell, M.bids, M.asks);
      SinkKeeps(M, on);
      l2 := on;
      M := M.(sink := on);
    }

    method SetSeq(s: nat)
      requires Valid()
      modifies `seqNo, `M
      ensures Valid() && M == old(M).(seqNo := s)
    {
      hide Holding;
      Separate(Buy, Sell, M.bids, M.asks);
      SameLadders(M, M.(seqNo := s));
      seqNo := s;
      M := M.(seqNo := s);
    }

    method AddConditionalOrder(order: Order)
      requires Shelved()
      modifies `ConditionalOrders, `M
      ensures Shelved() && (Valid() <==> old(Valid()))
      ensures M == old(M).(parked := old(M).parked + [order])
    {
      hide Holding, Halves;
      HalvesApart(Buy, Sell, M.bids, M.asks);
      ParkKeeps(M, M.parked + [order]);
      ConditionalOrders := ConditionalOrders + [order];
      M := M.(parked := M.parked + [order]);
    }

    // The remainder of an order that does not rest is gone.
    ghost method Drop(order: Order, remain: Qty)
      requires Shelved()
      modifies `M
      ensures Shelved() && (Valid() <==> old(Valid())) && M == Withdraw(old(M), order, remain)
    {
      hide Holding, Halves;
      HalvesApart(Buy, Sell, M.bids, M.asks);
      WithdrawKeeps(M, order, remain);
      M := Withdraw(M, order, remain);
    }

    // ---- what Valid says of the objects ----

    // One half: strictly sorted, the price index in exact agreement with the slice, no empty
    // level, every cached total the sum of the queue, every order positive, on this side, at the
    // price of its level and pointing back to it.
    ghost predicate Checks(half: BookSide)
      reads half, half.Owned
    {
      && (forall i, j | 0 <= i < j < |half.levels| :: Better(half.side, half.levels[i].Price, half.levels[j].Price))
      && (forall i | 0 <= i < |half.levels| ::
            half.levels[i].Price in half.byPrice && half.byPrice[half.levels[i].Price] == half.levels[i])
      && (forall p | p in half.byPrice :: half.byPrice[p] in half.levels && half.byPrice[p].Price == p)
      && (forall l | l in half.levels ::
            l in half.Owned && l.Orders in half.Owned && l.Orders.Spine <= half.Owned
            && l.Orders.size > 0 && l.totalQty == SumQ(l.Orders.Queue, Volumes()))
      && (forall n | n in half.Resting() ::
            n.Level in half.levels && n.order.volume > 0 && n.order.side == half.side && n.order.price == n.Level.Price)
    }

    lemma HalfChecks(half: BookSide, L: Ladder)
      requires half.Holds(L) && SideOk(half.side, L)
      ensures Checks(half)
    {
      forall n | n in half.Resting()
        ensures n.Level in half.levels && n.order.volume > 0
        ensures n.order.side == half.side && n.order.price == n.Level.Price
      {
        var i, k := half.Locate(n, L);
        QueueAtIndex(half.side, L, i);
        assert QueueOk(half.side, L[i].price, QueueAt(L, L[i].price));
      }
      forall l | l in half.levels ensures l.Orders.size > 0 {
        var i :| 0 <= i < |half.levels| && half.levels[i] == l;
        assert L[i].queue != [];
      }
    }

    // The six invariants that the fuzz test samples, and the documented ones, in every valid book.
    lemma ValidChecks()
      requires Valid()
      ensures Checks(Buy) && Buy.side == BUY && Checks(Sell) && Sell.side == SELL
      ensures forall n | n in Nodes() :: n.order.id in orderIndex && orderIndex[n.order.id] == n
      ensures forall id | id in orderIndex :: orderIndex[id] in Nodes() && orderIndex[id].order.id == id
    {
      HalfChecks(Buy, M.bids);
      HalfChecks(Sell, M.asks);
    }

    // ---- lookups ----

    lemma IndexIsLookup(id: int)
      requires Valid()
      ensures id in orderIndex <==> Resting(M, id)
      ensures id in orderIndex ==> Lookup(M, id) == Some(orderIndex[id].order) && orderIndex[id].order.id == id
      ensures id in orderIndex ==> OnBook(orderIndex[id].order.side)
      ensures id in orderIndex ==> Half(orderIndex[id].order.side).Has(orderIndex[id])
    {
      if id in orderIndex {
        var n := orderIndex[id];
        if n in Buy.Resting() {
          var i, k := Buy.Locate(n, M.bids);
          LookupExact(M, BUY, i, k);
        } else {
          var i, k := Sell.Locate(n, M.asks);
          LookupExact(M, SELL, i, k);
        }
      } else if LookupIn(M.bids, id).Some? {
        var i, k := LookupInFound(M.bids, id);
        var n := Buy.At(M.bids, i, k);
        assert false;
      } else if LookupIn(M.asks, id).Some? {
        var i, k := LookupInFound(M.asks, id);
        var n := Sell.At(M.asks, i, k);
        assert false;
      }
    }

    method LookupOrder(orderID: int) returns (o: Order, ok: bool)
      requires Valid()
      ensures ok <==> Resting(M, orderID)
      ensures ok ==> Lookup(M, orderID) == Some(o)
    {
      IndexIsLookup(orderID);
      if orderID in orderIndex {
        o, ok := orderIndex[orderID].order, true;
      } else {
        o, ok := Order(0, "", 0, OtherSide(""), OtherType(""), GTC, STPNone, 0, 0, 0), false;
      }
    }

    method EmitDelta(side: Side, price: Px, qty: Qty)
      requires Counted(M)
      modifies `seqNo, `sent, `M
      ensures M == Emit(old(M), side, price, qty) && Counted(M)
    {
      if l2 {
        seqNo := seqNo + 1;
        var d := BookDelta(seqNo, Symbol, side, price, qty);
        TapeSnoc(M.tape, Delta(d));
        sent := sent + [d];
        M := Emit(M, side, price, qty);
      }
    }

    // The price index of a half holds exactly the prices at which orders rest.
    lemma PriceIndexed(s: Side, p: Px)
      requires Valid() && OnBook(s)
      ensures p in Half(s).byPrice <==> QueueAt(SideOf(M, s), p) != []
    {
      var half, L := Half(s), SideOf(M, s);
      if p in half.byPrice {
        var i := half.LevelAt(p, L);
        half.Shape(L, i);
        QueueAtIndex(s, L, i);
        assert L[i].queue != [];
      }
      if QueueAt(L, p) != [] {
        var i := QueueAtFound(L, p);
        half.Tops(L);
        assert half.levels[i].Price in half.byPrice;
      }
    }

    // ---- resting ----

    // The index entry of the id is overwritten, so a valid book stays valid exactly when the id was
    // free and the volume positive. The ladders are right in any case.
    method Add(order: Order) returns (node: OrderNode?)
      requires Shelved()
      modifies Repr()
      ensures Shelved() && fresh(Repr() - old(Repr()))
      ensures M == Rest(old(M), order)
      ensures node != null <==> OnBook(order.side)
      ensures node != null ==> node.order == order && node.Level.Price == order.price
      ensures orderIndex == if OnBook(order.side) then old(orderIndex)[order.id := node] else old(orderIndex)
      ensures !OnBook(order.side) ==> UnchangedHalf(Buy) && UnchangedHalf(Sell)
      ensures OnBook(order.side) ==> UnchangedHalf(OtherHalf(order.side))
      ensures OnBook(order.side) ==>
        AddedAt(Half(order.side), node.Level, order.price !in old(Half(order.side).byPrice))
      ensures old(Valid()) ==>
        (Valid() <==> (OnBook(order.side) ==> order.volume > 0 && !Resting(old(M), order.id)))
    {
      hide Wf, Models, Shelved, Resting, Requeue, AddedAt;
      ghost var valid := Valid();
      if valid {
        RestExact(M, order);
        IndexIsLookup(order.id);
      }
      if OnBook(order.side) {
        node := Enter(order);
      } else {
        Drop(order, order.volume);
        node := null;
      }
    }

    method Enter(order: Order) returns (node: OrderNode)
      requires Shelved() && OnBook(order.side)
      modifies Repr()
      ensures Shelved() && fresh(Repr() - old(Repr()))
      ensures old(Models()) && order.id !in old(orderIndex) ==> Models()
      ensures M == Rest(old(M), order) && orderIndex == old(orderIndex)[order.id := node]
      ensures UnchangedHalf(OtherHalf(order.side))
      ensures node.order == order && node.Level.Price == order.price
      ensures AddedAt(Half(order.side), node.Level, order.price !in old(Half(order.side).byPrice))
    {
      hide Holding, Halves, Put, QueueAt, SumQ, AddedAt, Rest, Requeue;
      EmitThenSet(M, order);
      ghost var L := SideOf(M, order.side);
      ghost var L' := Put(order.side, L, order.price, QueueAt(L, order.price) + [order]);
      HalvesApart(Buy, Sell, M.bids, M.asks);
      if order.side.BUY? {
        node := AddSide(Buy, Sell, order, M.bids, M.asks);
        HalvesApart(Buy, Sell, L', M.asks);
      } else {
        ghost var models := Models();
        if models { Swapped(Buy, Sell, M.bids, M.asks); }
        node := AddSide(Sell, Buy, order, M.asks, M.bids);
        HalvesApart(Sell, Buy, L', M.bids);
        if models && order.id !in old(orderIndex) { Swapped(Sell, Buy, L', M.bids); }
      }
      M := SetSide(M, order.side, L');
    }

    static lemma EmitThenSet(b: Book, order: Order)
      requires OnBook(order.side)
      ensures var q := QueueAt(SideOf(b, order.side), order.price) + [order];
        SetSide(Emit(b, order.side, order.price, SumQ(q, Volumes())), order.side,
                Put(order.side, SideOf(b, order.side), order.price, q)) == Rest(b, order)
    {
    }

    // Adds to one half and to the id index.
    method AddSide(mine: BookSide, ghost other: BookSide, order: Order, ghost L: Ladder, ghost R: Ladder)
      returns (node: OrderNode)
      requires OnBook(mine.side) && Halves(mine, other, L, R) && Counted(M)
      modifies `orderIndex, `seqNo, `sent, `M, mine, mine.Owned
      ensures var L' := Put(mine.side, L, order.price, QueueAt(L, order.price) + [order]);
        && Halves(mine, other, L', R)
        && (old(Holding(orderIndex, mine, other, L, R)) && order.id !in old(orderIndex) ==>
              Holding(orderIndex, mine, other, L', R))
      ensures Counted(M) && fresh(mine.Owned - old(mine.Owned)) && orderIndex == old(orderIndex)[order.id := node]
      ensures M == Emit(old(M), order.side, order.price, SumQ(QueueAt(L, order.price) + [order], Volumes()))
      ensures node.order == order && node.Level.Price == order.price
      ensures AddedAt(mine, node.Level, order.price !in old(mine.byPrice))
    {
      hide BookSide.HoldsAs, BookSide.Resting, Holding, Halves, AddedAt;
      HalvesApart(mine, other, L, R);
      node := Register(mine, other, order, L, R);
      HalvesApart(mine, other, Put(mine.side, L, order.price, QueueAt(L, order.price) + [order]), R);
      var level := node.Level;
      EmitDelta(order.side, level.Price, level.totalQty);
    }

    method Register(mine: BookSide, ghost other: BookSide, order: Order, ghost L: Ladder, ghost R: Ladder)
      returns (node: OrderNode)
      requires OnBook(mine.side) && Halves(mine, other, L, R)
      modifies `orderIndex, mine, mine.Owned
      ensures var L' := Put(mine.side, L, order.price, QueueAt(L, order.price) + [order]);
        && Halves(mine, other, L', R)
        && (old(Holding(orderIndex, mine, other, L, R)) && order.id !in old(orderIndex) ==>
              Holding(orderIndex, mine, other, L', R))
      ensures fresh(mine.Owned - old(mine.Owned)) && orderIndex == old(orderIndex)[order.id := node]
      ensures node.Level.totalQty == SumQ(QueueAt(L, order.price) + [order], Volumes())
      ensures node.order == order && node.Level.Price == order.price
      ensures AddedAt(mine, node.Level, order.price !in old(mine.byPrice))
    {
      hide BookSide.HoldsAs, BookSide.Resting, Put, QueueAt;
      ghost var nodes := mine.Resting() + other.Resting();
      node := mine.AddSide(order, L);
      assert other.Holds(R) == old(other.Holds(R)) && other.Resting() == old(other.Resting());
      assert nodes + {node} == mine.Resting() + other.Resting();
      if old(Holding(orderIndex, mine, other, L, R)) && order.id !in orderIndex {
        assert Indexes(orderIndex, nodes);
        IndexGrows(orderIndex, nodes, node);
      }
      orderIndex := orderIndex[order.id := node];
    }

    // ---- cancelling and reducing ----

    method Cancel(targetID: int) returns (err: Error)
      requires Valid()
      modifies Repr()
      ensures Valid() && fresh(Repr() - old(Repr()))
      ensures (M, err) == Books.Cancel(old(M), targetID)
      ensures err == (if targetID in old(orderIndex) then NoError else CancelOrderFailed)
      ensures err != NoError ==> M == old(M)
      ensures orderIndex == old(orderIndex) - {targetID}
      ensures targetID in old(orderIndex) ==> var node := old(orderIndex[targetID]); var s := old(node.order.side);
        UnchangedHalf(OtherHalf(s)) && DroppedAt(Half(s), node.Level, QueueAt(SideOf(M, s), node.Level.Price) == [])
    {
      hide Wf, Models, UnchangedHalf, DroppedAt;
      IndexIsLookup(targetID);
      CancelKeeps(M, targetID);
      if targetID !in orderIndex {
        err := CancelOrderFailed;
      } else {
        Remove(orderIndex[targetID]);
        err := NoError;
      }
    }

    // The slice and price index of this half are the ones from before.
    twostate predicate UnchangedHalf(half: BookSide)
      reads half
    {
      half.levels == old(half.levels) && half.byPrice == old(half.byPrice)
    }

    // ... but for this level, if it is gone, or if it is new.
    twostate predicate DroppedAt(half: BookSide, level: MatchEngineEntry, gone: bool)
      reads half
    {
      BookSide.Shrank(old(half.levels), old(half.byPrice), half.levels, half.byPrice, level, gone)
    }

    twostate predicate AddedAt(half: BookSide, new level: MatchEngineEntry, added: bool)
      reads half
    {
      BookSide.Grew(old(half.levels), old(half.byPrice), half.levels, half.byPrice, level, added)
    }

    method Remove(node: OrderNode)
      requires Valid() && node.order.id in orderIndex && orderIndex[node.order.id] == node
      modifies Repr()
      ensures Models() && fresh(Repr() - old(Repr()))
      ensures M == Books.Cancel(old(M), old(node.order.id)).0
      ensures orderIndex == old(orderIndex) - {old(node.order.id)}
      ensures var s := old(node.order.side);
        UnchangedHalf(OtherHalf(s)) && DroppedAt(Half(s), node.Level, QueueAt(SideOf(M, s), node.Level.Price) == [])
    {
      hide Holding, Wf, Books.Cancel, Put, SumQ, Sits, BookSide.Shrank;
      ghost var o := node.order;
      ghost var s, i, k := Position(node);
      CancelAt(M, s, i, k);
      AtPrice(node);
      QueueAfter(M, s, o.price, RemoveAt(SideOf(M, s)[i].queue, k));
      ghost var L := SideOf(M, s);
      ghost var L' := Put(s, L, o.price, RemoveAt(L[i].queue, k));
      Separate(Buy, Sell, M.bids, M.asks);
      if node.order.side.BUY? {
        Detach(Buy, Sell, node, M.bids, M.asks, i, k);
        Separate(Buy, Sell, L', M.asks);
      } else {
        Swapped(Buy, Sell, M.bids, M.asks);
        Detach(Sell, Buy, node, M.asks, M.bids, i, k);
        Swapped(Sell, Buy, L', M.bids);
        Separate(Buy, Sell, M.bids, L');
      }
      M := SetSide(M, s, L').(voids := M.voids + [Fill(o, o.volume)]);
    }

    lemma AtPrice(node: OrderNode)
      requires Valid() && node.order.id in orderIndex && orderIndex[node.order.id] == node
      ensures node.Level.Price == node.order.price
    {
      hide BookSide.HoldsAs, Wf;
      ValidChecks();
      assert node in Nodes();
    }

    lemma QueueAfter(b: Book, s: Side, p: Px, q: seq<Order>)
      requires Wf(b) && OnBook(s)
      ensures QueueAt(Put(s, SideOf(b, s), p, q), p) == q
    {
      QueueAtPut(s, SideOf(b, s), p, q, p);
    }

    // n is at position k of level i of half `mine`, which holds L.
    ghost predicate Sits(mine: BookSide, node: OrderNode, L: Ladder, i: nat, k: nat)
      reads mine, mine.Owned
    {
      && node in mine.Resting()
      && i < |mine.levels| == |L| && mine.levels[i] == node.Level && mine.levels[i].Orders in mine.Owned
      && k < |mine.levels[i].Orders.Nodes| && mine.levels[i].Orders.Nodes[k] == node
      && k < |L[i].queue| && L[i].queue[k] == node.order
    }

    lemma Position(node: OrderNode) returns (s: Side, i: nat, k: nat)
      requires Valid() && node.order.id in orderIndex && orderIndex[node.order.id] == node
      ensures s == node.order.side && OnBook(s)
      ensures Sits(Half(s), node, SideOf(M, s), i, k)
    {
      IndexIsLookup(node.order.id);
      s := node.order.side;
      if s.BUY? {
        i, k := Buy.Locate(node, M.bids);
      } else {
        i, k := Sell.Locate(node, M.asks);
      }
    }

    // Cancelling within one half.
    method Detach(mine: BookSide, ghost other: BookSide, node: OrderNode, ghost L: Ladder, ghost R: Ladder,
        ghost i: nat, ghost k: nat)
      requires OnBook(mine.side) && Holding(orderIndex, mine, other, L, R) && Counted(M) && Sits(mine, node, L, i, k)
      modifies `orderIndex, `seqNo, `sent, `M, mine, mine.Owned
      ensures mine.Owned == old(mine.Owned) && Counted(M)
      ensures Holding(orderIndex, mine, other, Put(mine.side, L, L[i].price, RemoveAt(L[i].queue, k)), R)
      ensures M == Emit(old(M), old(node.order.side), L[i].price, SumQ(RemoveAt(L[i].queue, k), Volumes()))
      ensures orderIndex == old(orderIndex) - {old(node.order.id)}
      ensures DroppedAt(mine, node.Level, RemoveAt(L[i].queue, k) == [])
    {
      hide Holding, BookSide.HoldsAs, BookSide.Resting, BookSide.Shrank;
      var level := node.Level;
      var side := node.order.side;
      Separate(mine, other, L, R);
      TakeOut(mine, other, node, L, R, i, k);
      DropIfEmpty(mine, other, level, L, R, i, RemoveAt(L[i].queue, k));
      EmitDelta(side, level.Price, level.totalQty);
    }

    method TakeOut(mine: BookSide, ghost other: BookSide, node: OrderNode, ghost L: Ladder, ghost R: Ladder,
        ghost i: nat, ghost k: nat)
      requires OnBook(mine.side) && Holding(orderIndex, mine, other, L, R) && Sits(mine, node, L, i, k)
      modifies `orderIndex, mine.Owned
      ensures mine.levels == old(mine.levels) && mine.byPrice == old(mine.byPrice) && mine.Owned == old(mine.Owned)
      ensures orderIndex == old(orderIndex) - {old(node.order.id)}
      ensures Holding(orderIndex, mine, other, L[i := Ladders.Level(L[i].price, RemoveAt(L[i].queue, k))], R)
    {
      hide BookSide.HoldsAs, BookSide.Resting, Indexes;
      ghost var nodes := mine.Resting() + other.Resting();
      OnOneSide(mine, other, node);
      mine.Shape(L, i);
      assert Indexes(orderIndex, nodes);
      label Before:
      mine.TakeOut(node, L, i, k);
      assert other.Holds(R) == old(other.Holds(R)) && other.Resting() == old(other.Resting());
      assert Indexes(orderIndex, nodes) == old@Before(Indexes(orderIndex, nodes));
      IndexShrinks(orderIndex, nodes, node);
      assert nodes - {node} == mine.Resting() + other.Resting();
      orderIndex := orderIndex - {node.order.id};
    }

    // Drops level i, now holding q, from the ladder L if q is empty.
    method DropIfEmpty(mine: BookSide, ghost other: BookSide, level: MatchEngineEntry, ghost L: Ladder,
        ghost R: Ladder, ghost i: nat, ghost q: seq<Order>)
      requires OnBook(mine.side) && i < |L| == |mine.levels| && level == mine.levels[i]
      requires Holding(orderIndex, mine, other, L[i := Ladders.Level(L[i].price, q)], R)
      modifies mine`levels, mine`byPrice
      ensures Holding(orderIndex, mine, other, Put(mine.side, L, L[i].price, q), R)
      ensures level.Price == L[i].price && level.totalQty == SumQ(q, Volumes())
      ensures BookSide.Shrank(old(mine.levels), old(mine.byPrice), mine.levels, mine.byPrice, level, q == [])
    {
      hide BookSide.HoldsAs, BookSide.Resting, Indexes, BookSide.Shrank;
      BookSide.NoneShrank(mine.levels, mine.byPrice, level);
      ghost var L1 := L[i := Ladders.Level(L[i].price, q)];
      mine.Shape(L1, i);
      PutAgain(mine.side, L, i, q);
      if level.Orders.IsEmpty() {
        ghost var nodes := mine.Resting() + other.Resting();
        assert Indexes(orderIndex, nodes);
        label Before:
        mine.RemoveLevel(level, L1, i);
        assert Indexes(orderIndex, nodes) == old@Before(Indexes(orderIndex, nodes));
        assert nodes == mine.Resting() + other.Resting();
      }
    }

    // A negative volume is let through, and leaves an order that is not positive.
    method ReduceVolume(orderID: int, newVolume: Qty) returns (err: Error)
      requires Valid()
      modifies Repr()
      ensures Models() && fresh(Repr() - old(Repr()))
      ensures (M, err) == Books.ReduceVolume(old(M), orderID, newVolume)
      ensures err == CancelOrderFailed <==> orderID !in old(orderIndex)
      ensures err == ModifyIncrease <==>
        orderID in old(orderIndex) && newVolume != 0 && newVolume >= old(orderIndex[orderID].order.volume)
      ensures err != NoError ==> M == old(M)
      ensures Valid() <==> !(Resting(old(M), orderID) && newVolume < 0)
    {
      hide Models, Wf;
      IndexIsLookup(orderID);
      ReduceExact(M, orderID, newVolume);
      if newVolume == 0 {
        err := Cancel(orderID);
      } else if orderID !in orderIndex {
        err := CancelOrderFailed;
      } else {
        var node := orderIndex[orderID];
        if newVolume >= node.order.volume {
          err := ModifyIncrease;
        } else {
          Resize(node, newVolume);
          err := NoError;
        }
      }
    }

    method Resize(node: OrderNode, newVolume: Qty)
      requires Valid() && node.order.id in orderIndex && orderIndex[node.order.id] == node
      requires newVolume != 0 && newVolume < node.order.volume
      modifies Repr()
      ensures Models() && Repr() == old(Repr())
      ensures M == Books.ReduceVolume(old(M), old(node.order.id), newVolume).0
    {
      hide Holding, Wf, Books.ReduceVolume, Put, SumQ, Sits;
      ghost var o := node.order;
      ghost var s, i, k := Position(node);
      ReduceAt(M, s, i, k, newVolume);
      ghost var L := SideOf(M, s);
      ghost var q := L[i].queue[k := o.(volume := newVolume)];
      ghost var L' := Put(s, L, o.price, q);
      Separate(Buy, Sell, M.bids, M.asks);
      if node.order.side.BUY? {
        Shrink(Buy, Sell, node, newVolume, M.bids, M.asks, i, k);
      } else {
        Swapped(Buy, Sell, M.bids, M.asks);
        Shrink(Sell, Buy, node, newVolume, M.asks, M.bids, i, k);
        Swapped(Sell, Buy, L', M.bids);
      }
      M := SetSide(M, s, L').(voids := M.voids + [Fill(o, o.volume - newVolume)]);
    }

    method Shrink(mine: BookSide, ghost other: BookSide, node: OrderNode, newVolume: Qty, ghost L: Ladder,
        ghost R: Ladder, ghost i: nat, ghost k: nat)
      requires OnBook(mine.side) && Holding(orderIndex, mine, other, L, R) && Counted(M) && Sits(mine, node, L, i, k)
      modifies `seqNo, `sent, `M, mine.Owned
      ensures mine.Owned == old(mine.Owned) && Counted(M)
      ensures var q := L[i].queue[k := L[i].queue[k].(volume := newVolume)];
        && Holding(orderIndex, mine, other, Put(mine.side, L, L[i].price, q), R)
        && M == Emit(old(M), old(node.order.side), L[i].price, SumQ(q, Volumes()))
    {
      hide Holding, BookSide.HoldsAs, BookSide.Resting;
      var level := node.Level;
      Separate(mine, other, L, R);
      ghost var q := L[i].queue[k := L[i].queue[k].(volume := newVolume)];
      SetVolume(mine, other, node, newVolume, L, R, i, k);
      LevelOf(mine, other, level, L, R, i, q);
      EmitDelta(node.order.side, level.Price, level.totalQty);
    }

    method SetVolume(mine: BookSide, ghost other: BookSide, node: OrderNode, newVolume: Qty, ghost L: Ladder,
        ghost R: Ladder, ghost i: nat, ghost k: nat)
      requires OnBook(mine.side) && Holding(orderIndex, mine, other, L, R) && Sits(mine, node, L, i, k)
      modifies mine.Owned
      ensures mine.levels == old(mine.levels) && mine.Owned == old(mine.Owned)
      ensures node.order == old(node.order).(volume := newVolume)
      ensures Holding(orderIndex, mine, other, L[i := Ladders.Level(L[i].price,
        L[i].queue[k := L[i].queue[k].(volume := newVolume)])], R)
    {
      hide BookSide.HoldsAs, BookSide.Resting;
      ghost var nodes := mine.Resting() + other.Resting();
      mine.Shape(L, i);
      mine.Resize(node, newVolume, L, i, k);
      assert other.Holds(R) == old(other.Holds(R)) && other.Resting() == old(other.Resting());
      assert Indexes(orderIndex, nodes);
    }

    // Level i now holds q: its price and total, and the same ladder as a Put.
    lemma LevelOf(mine: BookSide, other: BookSide, level: MatchEngineEntry, L: Ladder, R: Ladder, i: nat, q: seq<Order>)
      requires i < |L| == |mine.levels| && level == mine.levels[i] && q != []
      requires Holding(orderIndex, mine, other, L[i := Ladders.Level(L[i].price, q)], R)
      ensures Holding(orderIndex, mine, other, Put(mine.side, L, L[i].price, q), R)
      ensures level.Price == L[i].price && level.totalQty == SumQ(q, Volumes())
    {
      hide BookSide.HoldsAs, BookSide.Resting, Indexes;
      mine.Shape(L[i := Ladders.Level(L[i].price, q)], i);
      PutAgain(mine.side, L, i, q);
    }

    // ---- matching ----

    method NextSeq() returns (s: nat)
      modifies `seqNo
      ensures seqNo == old(seqNo) + 1 && s == seqNo
    {
      seqNo := seqNo + 1;
      s := seqNo;
    }

    // The state of one half while its best level is being matched: the level holds q.
    ghost predicate Front(mine: BookSide, other: BookSide, level: MatchEngineEntry, L: Ladder, R: Ladder, q: seq<Order>)
      reads this, mine, other, mine.Owned, other.Owned
    {
      && L != [] && OnBook(mine.side) && |mine.levels| == |L| && level == mine.levels[0]
      && Holding(orderIndex, mine, other, L[0 := Ladders.Level(L[0].price, q)], R)
    }

    // Takes the oldest order of the best level out of the book.
    method PopHead(mine: BookSide, ghost other: BookSide, level: MatchEngineEntry, ghost L: Ladder,
        ghost R: Ladder, ghost q: seq<Order>)
      requires q != [] && Front(mine, other, level, L, R, q) && Counted(M)
      modifies `orderIndex, mine.Owned
      ensures Front(mine, other, level, L, R, q[1..]) && Counted(M) && M == old(M)
      ensures mine.Owned == old(mine.Owned)
    {
      hide Holding, BookSide.HoldsAs, BookSide.Resting;
      ghost var L1 := L[0 := Ladders.Level(L[0].price, q)];
      HeadSits(mine, other, level, L1, R);
      Separate(mine, other, L1, R);
      TakeOut(mine, other, level.Orders.head, L1, R, 0, 0);
      assert RemoveAt(q, 0) == q[1..];
      assert L1[0 := Ladders.Level(L1[0].price, q[1..])] == L[0 := Ladders.Level(L[0].price, q[1..])];
    }

    // Reduces it in place.
    method TrimHead(mine: BookSide, ghost other: BookSide, level: MatchEngineEntry, f: Qty, ghost L: Ladder,
        ghost R: Ladder, ghost q: seq<Order>)
      requires q != [] && Front(mine, other, level, L, R, q) && Counted(M)
      modifies mine.Owned
      ensures Front(mine, other, level, L, R, q[0 := q[0].(volume := q[0].volume - f)]) && Counted(M)
      ensures mine.Owned == old(mine.Owned)
    {
      hide BookSide.HoldsAs, BookSide.Resting;
      ghost var L1 := L[0 := Ladders.Level(L[0].price, q)];
      ghost var nodes := mine.Resting() + other.Resting();
      HeadSits(mine, other, level, L1, R);
      mine.Shape(L1, 0);
      mine.Shrink(level.Orders.head, f, L1, 0);
      ghost var q1 := q[0 := q[0].(volume := q[0].volume - f)];
      assert L1[0 := Ladders.Level(L1[0].price, q1)] == L[0 := Ladders.Level(L[0].price, q1)];
      assert other.Holds(R) == old(other.Holds(R)) && other.Resting() == old(other.Resting());
      assert Indexes(orderIndex, nodes);
    }

    // Takes f from the oldest order: out of the book if that is all of it, reduced otherwise.
    method TakeFromHead(mine: BookSide, ghost other: BookSide, level: MatchEngineEntry, f: Qty, ghost L: Ladder,
        ghost R: Ladder, ghost q: seq<Order>)
      requires q != [] && Front(mine, other, level, L, R, q) && Counted(M)
      modifies `orderIndex, mine.Owned
      ensures Front(mine, other, level, L, R, Left(q[0], f) + q[1..]) && Counted(M) && M == old(M)
      ensures mine.Owned == old(mine.Owned)
    {
      hide Holding, BookSide.HoldsAs, BookSide.Resting;
      ghost var L1 := L[0 := Ladders.Level(L[0].price, q)];
      HeadSits(mine, other, level, L1, R);
      Separate(mine, other, L1, R);
      if f == level.Orders.head.order.volume {
        PopHead(mine, other, level, L, R, q);
        assert [] + q[1..] == q[1..];
      } else {
        TrimHead(mine, other, level, f, L, R, q);
        assert q[0 := q[0].(volume := q[0].volume - f)] == [q[0].(volume := q[0].volume - f)] + q[1..];
      }
    }

    // Handles a same-user crossing per the taker's mode.
    method ApplySTP(mine: BookSide, ghost other: BookSide, taker: Order, level: MatchEngineEntry, remain: Qty,
        ghost L: Ladder, ghost R: Ladder, ghost q: seq<Order>)
      returns (left: Qty, done: bool)
      requires q != [] && Front(mine, other, level, L, R, q) && Counted(M) && SelfTrade(taker, q[0])
      modifies `orderIndex, mine.Owned
      ensures left == Step(taker, remain, q[0]).remain && (done ==> left == 0)
      ensures Front(mine, other, level, L, R, Step(taker, remain, q[0]).rest + q[1..]) && Counted(M) && M == old(M)
      ensures mine.Owned == old(mine.Owned)
    {
      hide Front, Counted;
      HeadIs(mine, other, level, L, R, q);
      assert [q[0]] + q[1..] == q && [] + q[1..] == q[1..];
      match taker.stp {
        case CancelResting =>
          PopHead(mine, other, level, L, R, q);
          left, done := remain, false;
        case CancelBoth =>
          PopHead(mine, other, level, L, R, q);
          left, done := 0, true;
        case Decrement =>
          var fill := MinQty(remain, level.Orders.head.order.volume);
          TakeFromHead(mine, other, level, fill, L, R, q);
          left, done := remain - fill, false;
        case CancelTaker =>
          left, done := 0, true;
        case _ =>
          left, done := 0, true;
      }
    }

    // One turn of the inner loop: the taker against the oldest order of the best level.
    method MatchHead(mine: BookSide, ghost other: BookSide, taker: Order, stpEnabled: bool,
        level: MatchEngineEntry, remain: Qty, ghost L: Ladder, ghost R: Ladder, ghost q: seq<Order>)
      returns (left: Qty, matches: seq<Match>, changed: bool, done: bool)
      requires remain > 0 && q != [] && q[0].volume > 0 && stpEnabled == (taker.userID != 0 && !taker.stp.STPNone?)
      requires Front(mine, other, level, L, R, q) && Counted(M)
      modifies `orderIndex, `seqNo, `M, mine.Owned
      ensures left == Step(taker, remain, q[0]).remain && (done ==> left == 0)
      ensures Front(mine, other, level, L, R, Step(taker, remain, q[0]).rest + q[1..]) && Counted(M)
      ensures mine.Owned == old(mine.Owned)
      ensures var h := Step(taker, remain, q[0]);
        && M == Record(old(M), taker, h.fills, L[0].price).(voids := old(M).voids + h.cuts)
        && matches == TradesSince(old(M), M)
        && (changed <==> h.rest + q[1..] != q)
    {
      hide Front, Counted, Step, Record, TradesOf, MakeMatch, SumQ, Left;
      HeadIs(mine, other, level, L, R, q);
      StepShows(taker, remain, q);
      var resting := level.Orders.head.order;
      if stpEnabled && resting.userID == taker.userID {
        var before := level.totalQty;
        left, done := ApplySTP(mine, other, taker, level, remain, L, R, q);
        HeadIs(mine, other, level, L, R, Step(taker, remain, q[0]).rest + q[1..]);
        changed, matches := level.totalQty != before, [];
        TradesAfter(M, M, []);
        StepWithdraws(taker, remain, q[0]);
        RecordOne(M, taker, Fill(q[0], 0), L[0].price);
        NoteVoids(mine, other, level, L, R, Step(taker, remain, q[0]).rest + q[1..], Step(taker, remain, q[0]).cuts);
      } else {
        StepFills(taker, remain, q[0]);
        var fill := MinQty(remain, resting.volume);
        RecordOne(M, taker, Fill(q[0], fill), L[0].price);
        var m := NoteTrade(mine, other, taker, resting.id, level.Price, fill, level, L, R, q);
        matches, left, changed, done := [m], remain - fill, true, false;
        TakeFromHead(mine, other, level, fill, L, R, q);
        TradesAfter(old(M), M, [Trade(m)]);
        assert M.voids + [] == M.voids;
      }
    }

    // The inner loop: the taker against the best level, oldest order first.
    method DrainLevel(mine: BookSide, ghost other: BookSide, taker: Order, stpEnabled: bool,
        level: MatchEngineEntry, remain: Qty, ghost L: Ladder, ghost R: Ladder)
      returns (left: Qty, matches: seq<Match>, levelChanged: bool)
      requires L != [] && AllPositive(L[0].queue) && stpEnabled == (taker.userID != 0 && !taker.stp.STPNone?)
      requires Front(mine, other, level, L, R, L[0].queue) && Counted(M)
      modifies `orderIndex, `seqNo, `M, mine.Owned
      ensures mine.Owned == old(mine.Owned) && Counted(M)
      ensures var h := Greedy(taker, remain, L[0].queue);
        && left == h.remain && Front(mine, other, level, L, R, h.rest)
        && M == Record(old(M), taker, h.fills, L[0].price).(voids := old(M).voids + h.cuts)
        && matches == TradesSince(old(M), M)
        && (levelChanged <==> h.rest != L[0].queue)
    {
      hide Front, Counted, Along, Step;
      ghost var q0, price, was := L[0].queue, L[0].price, M;
      ghost var q, fills, cuts := q0, [], [];
      left, matches, levelChanged := remain, [], false;
      AlongStarts(taker, remain, q0);
      TradesAfter(M, M, []);
      assert M.voids + [] == M.voids;
      while left > 0
        invariant Along(taker, remain, q0, left, q, fills, cuts) && AllPositive(q)
        invariant Front(mine, other, level, L, R, q) && Counted(M) && mine.Owned == old(mine.Owned)
        invariant was.tape <= M.tape && matches == TradesSince(was, M)
        invariant M == Record(was, taker, fills, price).(voids := was.voids + cuts)
        invariant (levelChanged <==> q != q0) && |q| <= |q0| && (q == q0 || |q| < |q0| || left <= 0)
        decreases |q|, left > 0
      {
        HeadIs(mine, other, level, L, R, q);
        if level.Orders.head == null {
          break;
        }
        var ms, changed, done;
        ghost var h, before := Step(taker, left, q[0]), M;
        AlongStep(taker, remain, q0, left, q, fills, cuts);
        StepQueue(taker, left, q);
        left, ms, changed, done := MatchHead(mine, other, taker, stpEnabled, level, left, L, R, q);
        RecordStep(was, taker, fills, cuts, h.fills, h.cuts, price);
        TradesCompose(was, before, M);
        matches, levelChanged := matches + ms, levelChanged || changed;
        q, fills, cuts := h.rest + q[1..], fills + h.fills, cuts + h.cuts;
        if done {
          break;
        }
      }
      AlongEnds(taker, remain, q0, left, q, fills, cuts);
    }

    // Pops the best level if it has been used up.
    method DropFront(mine: BookSide, ghost other: BookSide, level: MatchEngineEntry, ghost L: Ladder,
        ghost R: Ladder, ghost q: seq<Order>)
      requires Front(mine, other, level, L, R, q)
      modifies mine`levels, mine`byPrice
      ensures Holding(orderIndex, mine, other, Put(mine.side, L, L[0].price, q), R)
    {
      hide BookSide.HoldsAs, BookSide.Resting, Indexes;
      ghost var L1 := L[0 := Ladders.Level(L[0].price, q)];
      mine.Shape(L1, 0);
      PutAgain(mine.side, L, 0, q);
      if level.Orders.IsEmpty() {
        ghost var nodes := mine.Resting() + other.Resting();
        assert Indexes(orderIndex, nodes);
        label Before:
        mine.RemoveFront(L1);
        assert RemoveAt(L1, 0) == L1[1..];
        assert Indexes(orderIndex, nodes) == old@Before(Indexes(orderIndex, nodes));
        assert nodes == mine.Resting() + other.Resting();
      }
    }

    // One turn of the outer loop: everything the taker does at the best level.
    method MatchLevel(mine: BookSide, ghost other: BookSide, taker: Order, stpEnabled: bool, remain: Qty,
        ghost R: Ladder)
      returns (left: Qty, matches: seq<Match>)
      requires OnBook(taker.side) && mine.side == Opposite(taker.side) && SideOf(M, mine.side) != []
      requires stpEnabled == (taker.userID != 0 && !taker.stp.STPNone?) && AllPositive(SideOf(M, mine.side)[0].queue)
      requires Holding(orderIndex, mine, other, SideOf(M, mine.side), R) && Counted(M)
      modifies `orderIndex, `seqNo, `sent, `M, mine, mine.Owned
      ensures mine.Owned == old(mine.Owned) && Counted(M)
      ensures Holding(orderIndex, mine, other, SideOf(M, mine.side), R)
      ensures (M, left) == LevelStep(old(M), taker, remain)
      ensures matches == TradesSince(old(M), M)
    {
      hide Holding, Greedy, Record, Put, SumQ, BookSide.HoldsAs, TradesOf, DeltasOf, AllPositive;
      ghost var was, L := M, SideOf(M, mine.side);
      Separate(mine, other, L, R);
      FrontOf(mine, other, L, R);
      var level := mine.levels[0];
      var changed;
      left, matches, changed := DrainLevel(mine, other, taker, stpEnabled, level, remain, L, R);
      ghost var h := Greedy(taker, remain, L[0].queue);
      HeadIs(mine, other, level, L, R, h.rest);
      var price, qty := level.Price, level.totalQty;
      DropFront(mine, other, level, L, R, h.rest);
      ghost var L', before := Put(mine.side, L, L[0].price, h.rest), M;
      if changed {
        EmitDelta(mine.side, price, qty);
      }
      M := SetSide(M, mine.side, L');
      TradesUnchanged(was, before, M);
    }

    lemma FrontOf(mine: BookSide, other: BookSide, L: Ladder, R: Ladder)
      requires L != [] && OnBook(mine.side) && Holding(orderIndex, mine, other, L, R)
      ensures mine.levels != [] && Front(mine, other, mine.levels[0], L, R, L[0].queue)
    {
      assert L[0 := Ladders.Level(L[0].price, L[0].queue)] == L;
    }

    method MatchTaker(taker: Order, alwaysCross: bool) returns (matches: seq<Match>, remain: Qty)
      requires Valid()
      modifies Repr()
      ensures Valid() && fresh(Repr() - old(Repr()))
      ensures (M, remain) == Books.MatchTaker(old(M), taker, alwaysCross)
      ensures old(M).tape <= M.tape && matches == TradesSince(old(M), M)
    {
      hide Holding, Wf, MatchLevels, Counted;
      MatchTakerKeeps(M, taker, alwaysCross);
      Separate(Buy, Sell, M.bids, M.asks);
      if taker.side.BUY? {
        Swapped(Buy, Sell, M.bids, M.asks);
        matches, remain := Sweep(Sell, Buy, taker, alwaysCross);
        Swapped(Sell, Buy, M.asks, M.bids);
      } else if taker.side.SELL? {
        matches, remain := Sweep(Buy, Sell, taker, alwaysCross);
      } else {
        TradesAfter(M, M, []);
        matches, remain := [], taker.volume;
      }
    }

    // The outer loop: best level first, while the taker has volume and the level crosses.
    method Sweep(mine: BookSide, ghost other: BookSide, taker: Order,
        alwaysCross: bool) returns (matches: seq<Match>, remain: Qty)
      requires OnBook(taker.side) && mine.side == Opposite(taker.side) && Wf(M) && Counted(M)
      requires Holding(orderIndex, mine, other, SideOf(M, mine.side), SideOf(M, taker.side))
      modifies `orderIndex, `seqNo, `sent, `M, mine, mine.Owned
      ensures mine.Owned == old(mine.Owned) && Counted(M)
      ensures Holding(orderIndex, mine, other, SideOf(M, mine.side), SideOf(M, taker.side))
      ensures (M, remain) == MatchLevels(old(M), taker, alwaysCross, taker.volume)
      ensures old(M).tape <= M.tape && matches == TradesSince(old(M), M)
    {
      hide Holding, Wf, LevelStep, Counted, BookSide.HoldsAs;
      var stpEnabled := taker.userID != 0 && !taker.stp.STPNone?;
      ghost var was := M;
      matches, remain := [], taker.volume;
      TradesAfter(M, M, []);
      Separate(mine, other, SideOf(M, mine.side), SideOf(M, taker.side));
      while remain > 0
        invariant Holding(orderIndex, mine, other, SideOf(M, mine.side), SideOf(M, taker.side))
        invariant Counted(M) && Wf(M) && mine.Owned == old(mine.Owned)
        invariant MatchLevels(was, taker, alwaysCross, taker.volume) == MatchLevels(M, taker, alwaysCross, remain)
        invariant was.tape <= M.tape && matches == TradesSince(was, M)
        decreases |SideOf(M, mine.side)|, remain > 0
      {
        LadderOf(mine, other, SideOf(M, mine.side), SideOf(M, taker.side));
        if mine.levels == [] {
          break;
        }
        if !alwaysCross && !Crosses(taker, mine.levels[0].Price) {
          break;
        }
        ghost var before := M;
        FrontPositive(M, mine.side);
        LevelStepKeeps(M, taker, remain);
        LevelStepKeepsSide(M, taker, remain);
        var ms;
        remain, ms := MatchLevel(mine, other, taker, stpEnabled, remain, SideOf(M, taker.side));
        TradesCompose(was, before, M);
        matches := matches + ms;
      }
    }

    lemma LadderOf(mine: BookSide, other: BookSide, L: Ladder, R: Ladder)
      requires Holding(orderIndex, mine, other, L, R)
      ensures |mine.levels| == |L| && (L != [] ==> mine.levels[0].Price == L[0].price)
      ensures this !in mine.Owned && this !in other.Owned
    {
    }

    // Gives a match the next sequence number.
    method NoteTrade(ghost mine: BookSide, ghost other: BookSide, taker: Order, restingId: int, price: Px,
        fill: Qty, ghost level: MatchEngineEntry, ghost L: Ladder, ghost R: Ladder, ghost q: seq<Order>)
      returns (m: Match)
      requires Front(mine, other, level, L, R, q) && Counted(M)
      modifies `seqNo, `M
      ensures Front(mine, other, level, L, R, q) && Counted(M)
      ensures M == old(M).(seqNo := old(M).seqNo + 1, tape := old(M).tape + [Trade(m)])
      ensures m == MakeMatch(taker, restingId, price, fill, old(M).seqNo + 1)
    {
      hide Holding;
      Separate(mine, other, L[0 := Ladders.Level(L[0].price, q)], R);
      var s := NextSeq();
      m := MakeMatch(taker, restingId, price, fill, s);
      TapeSnoc(M.tape, Trade(m));
      M := M.(seqNo := M.seqNo + 1, tape := M.tape + [Trade(m)]);
    }

    ghost method NoteVoids(mine: BookSide, other: BookSide, level: MatchEngineEntry, L: Ladder, R: Ladder,
        q: seq<Order>, cuts: seq<Fill>)
      requires Front(mine, other, level, L, R, q) && Counted(M)
      modifies `M
      ensures Front(mine, other, level, L, R, q) && Counted(M)
      ensures M == old(M).(voids := old(M).voids + cuts)
    {
      hide Holding;
      Separate(mine, other, L[0 := Ladders.Level(L[0].price, q)], R);
      M := M.(voids := M.voids + cuts);
    }

    lemma HeadIs(mine: BookSide, other: BookSide, level: MatchEngineEntry, L: Ladder, R: Ladder, q: seq<Order>)
      requires Front(mine, other, level, L, R, q)
      ensures L != [] && level.Price == L[0].price && level.totalQty == SumQ(q, Volumes())
      ensures level.Orders.Valid() && level.Orders.Queue == q
      ensures q == [] <==> level.Orders.head == null
      ensures q != [] ==> level.Orders.head.order == q[0]
      ensures this !in mine.Owned && this !in other.Owned
    {
      var L1 := L[0 := Ladders.Level(L[0].price, q)];
      Separate(mine, other, L1, R);
      mine.Shape(L1, 0);
      if q != [] { HeadSits(mine, other, level, L1, R); }
    }

    lemma HeadSits(mine: BookSide, other: BookSide, level: MatchEngineEntry, L: Ladder, R: Ladder)
      requires |L| == |mine.levels| > 0 && L[0].queue != [] && level == mine.levels[0]
      requires Holding(orderIndex, mine, other, L, R)
      ensures level.Orders.head != null && Sits(mine, level.Orders.head, L, 0, 0)
    {
      mine.Shape(L, 0);
      assert level.Orders.Nodes[0] in level.Orders.Spine;
    }

    lemma OnOneSide(mine: BookSide, other: BookSide, node: OrderNode)
      requires Apart(mine, other) && node in mine.Resting()
      ensures node !in other.Resting()
    {
    }

    static lemma IndexGrows(index: map<int, OrderNode>, nodes: set<OrderNode>, node: OrderNode)
      requires Indexes(index, nodes) && node !in nodes && node.order.id !in index
      ensures Indexes(index[node.order.id := node], nodes + {node})
    {
    }

    static lemma IndexShrinks(index: map<int, OrderNode>, nodes: set<OrderNode>, node: OrderNode)
      requires Indexes(index, nodes) && node in nodes
      ensures Indexes(index - {node.order.id}, nodes - {node})
    {
    }
  }
}
