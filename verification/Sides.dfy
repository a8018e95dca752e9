// One side of the book on the heap: the sorted slice of levels and its price index, the pair
// that the source passes by reference to the methods that insert and remove levels.
module Sides {
  import opened Orders
  import opened Ladders
  import opened Levels

  class BookSide {
    const side: Side
    var levels: seq<MatchEngineEntry>
    var byPrice: map<Px, MatchEngineEntry>
    // The levels, their queues and the nodes in them.
    ghost var Owned: set<object>

    // The slice follows the ladder, strictly sorted, and no two levels share a queue.
    ghost predicate Ordered(ls: seq<MatchEngineEntry>, L: Ladder) {
      && |L| == |ls| && Sorted(side, L)
      && (forall i | 0 <= i < |ls| :: ls[i].Price == L[i].price)
      && (forall i, j | 0 <= i < j < |ls| :: ls[i].Orders != ls[j].Orders)
    }

    // The price index has exactly one entry per level, the same object.
    static ghost predicate Indexed(ls: seq<MatchEngineEntry>, index: map<Px, MatchEngineEntry>) {
      && (forall i | 0 <= i < |ls| :: ls[i].Price in index && index[ls[i].Price] == ls[i])
      && (forall p | p in index :: index[p] in ls && index[p].Price == p)
    }

    // Each level is well formed and holds its queue of the ladder. The queue may be empty here:
    // matching and cancelling drop an emptied level only after removing its last order.
    static ghost predicate Filled(ls: seq<MatchEngineEntry>, L: Ladder, owned: set<object>)
      reads owned
    {
      && (forall l | l in ls ::
            l in owned && l.Orders in owned && l.Orders.Spine <= owned && l.Valid())
      && |L| == |ls|
      && (forall i | 0 <= i < |ls| :: ls[i].Orders.Queue == L[i].queue)
    }

    ghost predicate HoldsAs(ls: seq<MatchEngineEntry>, index: map<Px, MatchEngineEntry>, L: Ladder)
      reads `Owned, Owned
    {
      this !in Owned && Ordered(ls, L) && Indexed(ls, index) && Filled(ls, L, Owned)
    }

    // This side holds the ladder L.
    ghost predicate Holds(L: Ladder)
      reads this, Owned
    {
      HoldsAs(levels, byPrice, L)
    }

    // The slice and the index from before, with this level put in at its place if it is new.
    static ghost predicate Grew(ls: seq<MatchEngineEntry>, index: map<Px, MatchEngineEntry>,
        ls': seq<MatchEngineEntry>, index': map<Px, MatchEngineEntry>, level: MatchEngineEntry, added: bool)
    {
      if added then
        && level !in ls && index' == index[level.Price := level]
        && exists k | 0 <= k <= |ls| :: ls' == ls[..k] + [level] + ls[k..]
      else ls' == ls && index' == index
    }

    // ... and with this level taken out if it is gone.
    static ghost predicate Shrank(ls: seq<MatchEngineEntry>, index: map<Px, MatchEngineEntry>,
        ls': seq<MatchEngineEntry>, index': map<Px, MatchEngineEntry>, level: MatchEngineEntry, gone: bool)
    {
      if gone then
        && index' == index - {level.Price}
        && exists k | 0 <= k < |ls| :: ls[k] == level && ls' == RemoveAt(ls, k)
      else ls' == ls && index' == index
    }

    static lemma NoneShrank(ls: seq<MatchEngineEntry>, index: map<Px, MatchEngineEntry>, level: MatchEngineEntry)
      ensures Shrank(ls, index, ls, index, level, false)
    {
    }

    // Putting in and taking out the same level gives the same slice and index.
    static lemma GrewShrank(ls: seq<MatchEngineEntry>, index: map<Px, MatchEngineEntry>,
        ls1: seq<MatchEngineEntry>, index1: map<Px, MatchEngineEntry>,
        ls2: seq<MatchEngineEntry>, index2: map<Px, MatchEngineEntry>, level: MatchEngineEntry, added: bool)
      requires Grew(ls, index, ls1, index1, level, added) && Shrank(ls1, index1, ls2, index2, level, added)
      requires added ==> level.Price !in index
      ensures ls2 == ls && index2 == index
    {
      if added {
        var k :| 0 <= k <= |ls| && ls1 == ls[..k] + [level] + ls[k..];
        var i :| 0 <= i < |ls1| && ls1[i] == level && ls2 == RemoveAt(ls1, i);
        InsertThenRemove(ls, level, k, i);
      }
    }

    // n rests on this side.
    ghost predicate Has(n: OrderNode)
      reads this, Owned
    {
      n in Owned && n.Level.Orders in Owned && n.Level in levels && n in n.Level.Orders.Spine
    }

    ghost function Resting(): set<OrderNode>
      reads this, Owned
    {
      set n: OrderNode | n in Owned && Has(n)
    }

    // The position of a resting node, in the level slice and in its queue.
    lemma Locate(n: OrderNode, L: Ladder) returns (i: nat, k: nat)
      requires Holds(L) && Has(n)
      ensures i < |levels| && levels[i] == n.Level
      ensures k < |levels[i].Orders.Nodes| && levels[i].Orders.Nodes[k] == n
      ensures i < |L| && k < |L[i].queue| && L[i].queue[k] == n.order && n in Resting()
    {
      i :| 0 <= i < |levels| && levels[i] == n.Level;
      k :| 0 <= k < |levels[i].Orders.Nodes| && levels[i].Orders.Nodes[k] == n;
    }

    // What is known of one level.
    lemma Shape(L: Ladder, i: nat)
      requires Holds(L) && i < |levels|
      ensures |L| == |levels| && levels[i].Price == L[i].price && Sorted(side, L)
      ensures levels[i].Valid() && levels[i].Orders.Queue == L[i].queue
      ensures |levels[i].Orders.Nodes| == |L[i].queue| && (L[i].queue == [] ==> levels[i].Orders.Spine == {})
      ensures levels[i] in Owned && levels[i].Orders in Owned && levels[i].Orders.Spine <= Owned
      ensures forall n | n in levels[i].Orders.Spine :: n in Resting()
    {
    }

    lemma Tops(L: Ladder)
      requires Holds(L)
      ensures |L| == |levels| && forall i | 0 <= i < |L| :: levels[i].Price == L[i].price
    {
    }

    lemma NotOwned(L: Ladder)
      requires Holds(L)
      ensures this !in Owned && Ordered(levels, L) && |L| == |levels|
      ensures forall l | l in levels :: l in Owned && l.Orders in Owned
    {
    }

    static lemma FilledMore(ls: seq<MatchEngineEntry>, L: Ladder, owned: set<object>, more: set<object>)
      requires Filled(ls, L, owned) && owned <= more
      ensures Filled(ls, L, more)
    {
    }

    // Every position of the ladder is a resting node.
    lemma At(L: Ladder, i: nat, k: nat) returns (n: OrderNode)
      requires Holds(L) && i < |L| && k < |L[i].queue|
      ensures Has(n) && n in Resting() && n.order == L[i].queue[k]
    {
      n := levels[i].Orders.Nodes[k];
    }

    constructor (s: Side)
      ensures Holds([]) && Owned == {} && side == s && levels == []
    {
      side := s;
      levels, byPrice := [], map[];
      Owned := {};
    }

    // A new queue at one level leaves the order of the ladder alone.
    lemma OrderedUpdate(L: Ladder, i: nat, q: seq<Order>)
      requires Ordered(levels, L) && i < |L|
      ensures Ordered(levels, L[i := Ladders.Level(L[i].price, q)])
    {
    }

    // Takes a node out of its level.
    method TakeOut(node: OrderNode, ghost L: Ladder, ghost i: nat, ghost k: nat)
      requires Holds(L) && i < |levels| && node.Level == levels[i]
      requires k < |levels[i].Orders.Nodes| && node == levels[i].Orders.Nodes[k]
      modifies node.Level, node.Level.Orders, node.Level.Orders.Spine`Prev, node.Level.Orders.Spine`Next
      ensures Holds(L[i := Level(L[i].price, RemoveAt(L[i].queue, k))])
      ensures Resting() == old(Resting()) - {node}
    {
      hide Ordered, Indexed, Filled, RemoveAt;
      var level := node.Level;
      Apart(L, level);
      NotOwned(L);
      Shape(L, i);
      OrderedUpdate(L, i, RemoveAt(L[i].queue, k));
      level.RemoveNode(node, k);
      Refilled(level, L, i);
      TookOut(node);
    }

    // One level has changed its queue; the others are as they were.
    twostate lemma Refilled(level: MatchEngineEntry, new L: Ladder, new i: nat)
      requires old(Holds(L)) && levels == old(levels) && Owned == old(Owned) && i < |levels| && levels[i] == level
      requires forall l | l in levels && l != level ::
        l.Valid() && l.Orders.Spine == old(l.Orders.Spine) && l.Orders.Queue == old(l.Orders.Queue)
      requires level.Valid() && level.Orders.Spine <= Owned
      ensures Filled(levels, L[i := Ladders.Level(L[i].price, level.Orders.Queue)], Owned)
    {
      assert forall j | 0 <= j < |levels| && j != i :: levels[j] != level;
    }

    twostate lemma TookOut(node: OrderNode)
      requires levels == old(levels) && Owned == old(Owned) && node.Level in levels
      requires forall l | l in levels && l != node.Level ::
        l.Orders.Spine == old(l.Orders.Spine) && node !in l.Orders.Spine
      requires node.Level.Orders.Spine == old(node.Level.Orders.Spine) - {node}
      ensures Resting() == old(Resting()) - {node}
    {
    }

    // The other levels share nothing with this one.
    lemma Apart(L: Ladder, level: MatchEngineEntry)
      requires Holds(L) && level in levels
      ensures forall l | l in levels :: l.Valid()
      ensures forall l | l in levels && l != level :: l.Orders != level.Orders && l.Orders.Spine !! level.Orders.Spine
    {
    }

    // Sets the volume of the oldest order of a level, or of any order.
    method Shrink(node: OrderNode, f: Qty, ghost L: Ladder, ghost i: nat)
      requires Holds(L) && i < |levels| && node.Level == levels[i]
      requires levels[i].Orders.Nodes != [] && node == levels[i].Orders.Nodes[0]
      modifies node.Level`totalQty, node.Level.Orders`Queue, node`order
      ensures Holds(L[i := Level(L[i].price, L[i].queue[0 := L[i].queue[0].(volume := L[i].queue[0].volume - f)])])
      ensures Resting() == old(Resting())
      ensures node.order == old(node.order).(volume := old(node.order).volume - f)
    {
      hide Ordered, Indexed, Filled;
      Apart(L, node.Level);
      NotOwned(L);
      Shape(L, i);
      OrderedUpdate(L, i, L[i].queue[0 := L[i].queue[0].(volume := L[i].queue[0].volume - f)]);
      node.Level.ReduceHead(f);
      Refilled(node.Level, L, i);
    }

    method Resize(node: OrderNode, newVolume: Qty, ghost L: Ladder, ghost i: nat, ghost k: nat)
      requires Holds(L) && i < |levels| && node.Level == levels[i]
      requires k < |levels[i].Orders.Nodes| && node == levels[i].Orders.Nodes[k]
      modifies node.Level`totalQty, node.Level.Orders`Queue, node`order
      ensures Holds(L[i := Level(L[i].price, L[i].queue[k := L[i].queue[k].(volume := newVolume)])])
      ensures Resting() == old(Resting())
      ensures node.order == old(node.order).(volume := newVolume)
    {
      hide Ordered, Indexed, Filled;
      Apart(L, node.Level);
      NotOwned(L);
      Shape(L, i);
      OrderedUpdate(L, i, L[i].queue[k := L[i].queue[k].(volume := newVolume)]);
      node.Level.ReduceNode(node, newVolume, k);
      Refilled(node.Level, L, i);
    }

    // The test of the two binary searches: `closed` also accepts the price itself.
    predicate Past(p: Px, price: Px, closed: bool) {
      if closed then !Better(side, p, price) else Better(side, price, p)
    }

    // First index whose price is past the given one.
    method Search(price: Px, closed: bool, ghost L: Ladder) returns (idx: nat)
      requires OnBook(side) && Ordered(levels, L)
      ensures idx <= |L|
      ensures forall k | 0 <= k < |L| :: Past(L[k].price, price, closed) <==> idx <= k
    {
      idx := 0;
      var j := |levels|;
      while idx < j
        invariant idx <= j <= |L|
        invariant forall k | 0 <= k < idx :: !Past(L[k].price, price, closed)
        invariant forall k | j <= k < |L| :: Past(L[k].price, price, closed)
      {
        var h := (idx + j) / 2;
        if Past(levels[h].Price, price, closed) {
          j := h;
        } else {
          idx := h + 1;
        }
      }
    }

    // The closed search for a price on the ladder stops at the level of that price.
    lemma SearchIsExact(L: Ladder, i: nat, idx: nat)
      requires Sorted(side, L) && i < |L| && idx <= |L|
      requires forall k | 0 <= k < |L| :: Past(L[k].price, L[i].price, true) <==> idx <= k
      ensures idx == i
    {
      assert Past(L[i].price, L[i].price, true);
      if i > 0 { assert Better(side, L[i - 1].price, L[i].price); }
    }

    static lemma DropIndexed(side: Side, ls: seq<MatchEngineEntry>, index: map<Px, MatchEngineEntry>, i: nat)
      requires Indexed(ls, index) && i < |ls|
      requires forall j, k | 0 <= j < k < |ls| :: Better(side, ls[j].Price, ls[k].Price)
      ensures Indexed(RemoveAt(ls, i), index - {ls[i].Price})
    {
      var rest := RemoveAt(ls, i);
      assert forall k | 0 <= k < |rest| :: rest[k] == ls[if k < i then k else k + 1];
      forall p | p in index - {ls[i].Price} ensures index[p] in rest {
        var j :| 0 <= j < |ls| && ls[j] == index[p];
        assert rest[if j < i then j else j - 1] == index[p];
      }
    }

    lemma DropHolds(L: Ladder, i: nat)
      requires Holds(L) && i < |levels|
      ensures HoldsAs(RemoveAt(levels, i), byPrice - {levels[i].Price}, RemoveAt(L, i))
    {
      DropIndexed(side, levels, byPrice, i);
      DropOrdered(L, i);
      DropFilled(L, i);
    }

    lemma DropOrdered(L: Ladder, i: nat)
      requires Ordered(levels, L) && i < |levels|
      ensures Ordered(RemoveAt(levels, i), RemoveAt(L, i))
    {
      var rest := RemoveAt(levels, i);
      assert forall k | 0 <= k < |rest| :: rest[k] == levels[if k < i then k else k + 1];
      assert forall k | 0 <= k < |rest| :: RemoveAt(L, i)[k] == L[if k < i then k else k + 1];
    }

    lemma DropFilled(L: Ladder, i: nat)
      requires Filled(levels, L, Owned) && i < |levels|
      ensures Filled(RemoveAt(levels, i), RemoveAt(L, i), Owned)
    {
      var rest := RemoveAt(levels, i);
      RemoveAtMembers(levels, i);
      forall k | 0 <= k < |rest| ensures rest[k].Orders.Queue == RemoveAt(L, i)[k].queue {
        assert rest[k] == levels[if k < i then k else k + 1];
      }
    }

    static lemma RemoveAtMembers(ls: seq<MatchEngineEntry>, i: nat)
      requires i < |ls|
      ensures forall l | l in ls :: l in RemoveAt(ls, i) || l == ls[i]
      ensures forall l | l in RemoveAt(ls, i) :: l in ls
    {
      var rest := RemoveAt(ls, i);
      forall l | l in ls ensures l in rest || l == ls[i] {
        var k :| 0 <= k < |ls| && ls[k] == l;
        assert k != i ==> rest[if k < i then k else k - 1] == l;
      }
      forall l | l in rest ensures l in ls {
        var k :| 0 <= k < |rest| && rest[k] == l;
        assert ls[if k < i then k else k + 1] == l;
      }
    }

    twostate lemma Dropped(level: MatchEngineEntry)
      requires Owned == old(Owned)
      requires forall l | l in old(levels) :: (l in levels || l == level) && l.Orders.Spine == old(l.Orders.Spine)
      requires forall l | l in levels :: l in old(levels)
      ensures level.Orders.Spine == {} ==> Resting() == old(Resting())
    {
    }

    // Drops a level from the slice and the index. The search always lands on the level.
    method RemoveLevel(level: MatchEngineEntry, ghost L: Ladder, ghost i: nat)
      requires OnBook(side) && Holds(L) && i < |levels| && level == levels[i]
      modifies `levels, `byPrice
      ensures Holds(RemoveAt(L, i))
      ensures Shrank(old(levels), old(byPrice), levels, byPrice, level, true)
      ensures level.Orders.Spine == {} ==> Resting() == old(Resting())
    {
      hide HoldsAs, Ordered;
      NotOwned(L);
      Shape(L, i);
      DropHolds(L, i);
      RemoveAtMembers(levels, i);
      byPrice := byPrice - {level.Price};
      var idx := Search(level.Price, true, L);
      SearchIsExact(L, i, idx);
      if idx >= |levels| || levels[idx] != level {
        assert false;
      } else {
        assert levels[i] == level && levels[..idx] + levels[idx + 1..] == RemoveAt(levels, i);
        levels := levels[..idx] + levels[idx + 1..];
        Dropped(level);
      }
    }

    // Pops the best level, after matching has used it up.
    method RemoveFront(ghost L: Ladder)
      requires Holds(L) && levels != []
      modifies `levels, `byPrice
      ensures Holds(L[1..])
      ensures Shrank(old(levels), old(byPrice), levels, byPrice, old(levels[0]), true)
      ensures old(levels[0]).Orders.Spine == {} ==> Resting() == old(Resting())
    {
      hide HoldsAs;
      Shape(L, 0);
      DropHolds(L, 0);
      RemoveAtMembers(levels, 0);
      assert RemoveAt(levels, 0) == levels[1..] && RemoveAt(L, 0) == L[1..];
      var level := levels[0];
      byPrice := byPrice - {level.Price};
      levels := levels[1..];
      Dropped(level);
    }

    // Rests an order at the tail of its price level, making the level if there is none.
    method AddSide(order: Order, ghost L: Ladder) returns (node: OrderNode)
      requires OnBook(side) && Holds(L)
      modifies this, Owned
      ensures Holds(Put(side, L, order.price, QueueAt(L, order.price) + [order]))
      ensures fresh(node) && node.order == order && fresh(Owned - old(Owned)) && old(Owned) <= Owned
      ensures Resting() == old(Resting()) + {node}
      ensures node.Level.Price == order.price
      ensures node.Level.totalQty == SumQ(QueueAt(L, order.price) + [order], Volumes())
      ensures forall n: OrderNode | n in old(Owned) :: n.order == old(n.order)
      ensures Grew(old(levels), old(byPrice), levels, byPrice, node.Level, order.price !in old(byPrice))
    {
      hide HoldsAs, Ordered, Put, QueueAt;
      NotOwned(L);
      if order.price in byPrice {
        var level := byPrice[order.price];
        ghost var i := LevelAt(order.price, L);
        AppendShape(L, i, order);
        node := Append(level, order, L, i);
      } else {
        node := Insert(order, L);
      }
    }

    lemma LevelAt(price: Px, L: Ladder) returns (i: nat)
      requires Holds(L) && price in byPrice
      ensures i < |levels| && levels[i] == byPrice[price] && levels[i].Price == price
      ensures levels[i] in Owned && levels[i].Orders in Owned && levels[i].Orders.Spine <= Owned
    {
      i :| 0 <= i < |levels| && levels[i] == byPrice[price];
    }

    lemma AppendShape(L: Ladder, i: nat, order: Order)
      requires Ordered(levels, L) && i < |levels| && levels[i].Price == order.price
      ensures QueueAt(L, order.price) == L[i].queue
      ensures Put(side, L, order.price, QueueAt(L, order.price) + [order]) ==
        L[i := Ladders.Level(L[i].price, L[i].queue + [order])]
    {
      QueueAtIndex(side, L, i);
      PutReplaces(side, L, i, L[i].queue + [order]);
    }

    // The branch of AddSide where the level exists.
    method Append(level: MatchEngineEntry, order: Order, ghost L: Ladder, ghost i: nat) returns (node: OrderNode)
      requires OnBook(side) && Holds(L) && i < |levels| && levels[i] == level
      modifies `Owned, level, level.Orders, level.Orders.Spine`Next
      ensures Holds(L[i := Level(L[i].price, L[i].queue + [order])])
      ensures fresh(node) && node.order == order && Owned == old(Owned) + {node}
      ensures Resting() == old(Resting()) + {node}
      ensures node.Level == level && level.totalQty == SumQ(L[i].queue + [order], Volumes())
    {
      Apart(L, level);
      OrderedUpdate(L, i, L[i].queue + [order]);
      node := level.AddOrder(order);
      GrownFilled(node, level, L, i);
      Owned := Owned + {node};
      Grown(node, level);
    }

    twostate lemma GrownFilled(new node: OrderNode, level: MatchEngineEntry, new L: Ladder, new i: nat)
      requires old(Holds(L)) && levels == old(levels) && Owned == old(Owned) && i < |levels| && levels[i] == level
      requires forall l | l in levels && l != level ::
        l.Valid() && l.Orders.Spine == old(l.Orders.Spine) && l.Orders.Queue == old(l.Orders.Queue)
      requires level.Valid() && level.Orders.Spine == old(level.Orders.Spine) + {node}
      ensures Filled(levels, L[i := Ladders.Level(L[i].price, level.Orders.Queue)], Owned + {node})
    {
      assert forall j | 0 <= j < |levels| && j != i :: levels[j] != level;
    }

    twostate lemma Grown(new node: OrderNode, level: MatchEngineEntry)
      requires Owned == old(Owned) + {node} && node.Level in levels && node.Level.Orders in Owned
      requires levels == old(levels) && fresh(node)
      requires forall l | l in old(levels) && l != node.Level :: l.Orders.Spine == old(l.Orders.Spine)
      requires level == node.Level && level.Orders.Spine == old(level.Orders.Spine) + {node}
      ensures Resting() == old(Resting()) + {node}
    {
    }

    // The branch of AddSide that makes a level and inserts it by binary search.
    method Insert(order: Order, ghost L: Ladder) returns (node: OrderNode)
      requires OnBook(side) && Holds(L) && order.price !in byPrice
      modifies `Owned, `levels, `byPrice
      ensures Holds(Put(side, L, order.price, QueueAt(L, order.price) + [order]))
      ensures fresh(node) && node.order == order && fresh(Owned - old(Owned)) && old(Owned) <= Owned
      ensures Resting() == old(Resting()) + {node}
      ensures node.Level.Price == order.price
      ensures node.Level.totalQty == SumQ(QueueAt(L, order.price) + [order], Volumes())
      ensures Grew(old(levels), old(byPrice), levels, byPrice, node.Level, true)
    {
      hide Ordered, Indexed, Filled, Put, QueueAt;
      NotOwned(L);
      ghost var was := Owned;
      assert Filled(levels, L, was);
      label Before:
      var level;
      level, node := NewLevel(order);
      Owned := Owned + {level, level.Orders, node};
      assert Filled(levels, L, was) == old@Before(Filled(levels, L, was));
      FilledMore(levels, L, was, Owned);
      Place(level, L);
      assert QueueAt(L, order.price) + [order] == level.Orders.Queue;
      Inserted(node, level);
    }

    method Place(level: MatchEngineEntry, ghost L: Ladder)
      requires OnBook(side) && Holds(L) && level.Price !in byPrice
      requires level in Owned && level.Orders in Owned && level.Orders.Spine <= Owned && level.Valid()
      requires |level.Orders.Queue| == 1 && level !in levels && forall l | l in levels :: l.Orders != level.Orders
      modifies `levels, `byPrice
      ensures Holds(Put(side, L, level.Price, QueueAt(L, level.Price) + level.Orders.Queue))
      ensures level in levels
      ensures forall l | l in levels :: l == level || l in old(levels)
      ensures forall l | l in old(levels) :: l in levels
      ensures QueueAt(L, level.Price) == []
      ensures Grew(old(levels), old(byPrice), levels, byPrice, level, true)
    {
      hide HoldsAs, Ordered, Put;
      NotOwned(L);
      var idx := Search(level.Price, false, L);
      InsertHolds(L, level, idx);
      InsertMembers(levels, level, idx);
      byPrice := byPrice[level.Price := level];
      levels := levels[..idx] + [level] + levels[idx..];
    }

    static method NewLevel(order: Order) returns (level: MatchEngineEntry, node: OrderNode)
      ensures fresh(level) && fresh(level.Orders) && fresh(node) && node.Level == level && node.order == order
      ensures level.Valid() && level.Price == order.price
      ensures level.Orders.Queue == [order] && level.Orders.Spine == {node}
    {
      level := new MatchEngineEntry(order.price);
      node := level.AddOrder(order);
    }

    twostate lemma Inserted(new node: OrderNode, new level: MatchEngineEntry)
      requires Owned == old(Owned) + {level, level.Orders, node}
      requires level !in old(Owned) && level.Orders !in old(Owned) && node !in old(Owned)
      requires node.Level == level && level.Orders.Spine == {node}
      requires level in levels && forall l | l in old(levels) :: l in levels && l.Orders.Spine == old(l.Orders.Spine)
      requires forall l | l in levels :: l == level || l in old(levels)
      ensures Resting() == old(Resting()) + {node}
    {
    }

    static lemma InsertMembers(ls: seq<MatchEngineEntry>, level: MatchEngineEntry, idx: nat)
      requires idx <= |ls|
      ensures var more := ls[..idx] + [level] + ls[idx..];
        level in more && (forall l | l in ls :: l in more) && (forall l | l in more :: l == level || l in ls)
    {
      var more := ls[..idx] + [level] + ls[idx..];
      assert more[idx] == level;
      forall l | l in ls ensures l in more {
        var k :| 0 <= k < |ls| && ls[k] == l;
        assert more[if k < idx then k else k + 1] == l;
      }
      forall l | l in more ensures l == level || l in ls {
        var k :| 0 <= k < |more| && more[k] == l;
        assert k != idx ==> ls[if k < idx then k else k - 1] == l;
      }
    }

    lemma InsertOrdered(L: Ladder, level: MatchEngineEntry, idx: nat, q: seq<Order>)
      requires Ordered(levels, L) && idx <= |L| && forall l | l in levels :: l.Orders != level.Orders
      requires forall k | 0 <= k < idx :: Better(side, L[k].price, level.Price)
      requires forall k | idx <= k < |L| :: Better(side, level.Price, L[k].price)
      ensures Ordered(levels[..idx] + [level] + levels[idx..], L[..idx] + [Ladders.Level(level.Price, q)] + L[idx..])
    {
      hide Better;
      var more, M := levels[..idx] + [level] + levels[idx..], L[..idx] + [Ladders.Level(level.Price, q)] + L[idx..];
      InsertAtIs(levels, level, idx);
      InsertAtIs(L, Ladders.Level(level.Price, q), idx);
    }

    lemma InsertFilled(L: Ladder, level: MatchEngineEntry, idx: nat)
      requires Filled(levels, L, Owned) && idx <= |L|
      requires level in Owned && level.Orders in Owned && level.Orders.Spine <= Owned && level.Valid()
      requires forall l | l in levels :: l.Orders != level.Orders
      ensures Filled(levels[..idx] + [level] + levels[idx..],
                     L[..idx] + [Ladders.Level(level.Price, level.Orders.Queue)] + L[idx..], Owned)
    {
      var q := level.Orders.Queue;
      var more, M := levels[..idx] + [level] + levels[idx..], L[..idx] + [Ladders.Level(level.Price, q)] + L[idx..];
      InsertMembers(levels, level, idx);
      InsertAtIs(levels, level, idx);
      InsertAtIs(L, Ladders.Level(level.Price, q), idx);
      assert forall k | 0 <= k < |more| :: more[k].Orders.Queue == M[k].queue;
    }

    static lemma InsertIndexed(ls: seq<MatchEngineEntry>, index: map<Px, MatchEngineEntry>,
        level: MatchEngineEntry, idx: nat)
      requires Indexed(ls, index) && idx <= |ls| && level.Price !in index
      ensures Indexed(ls[..idx] + [level] + ls[idx..], index[level.Price := level])
    {
      var more := ls[..idx] + [level] + ls[idx..];
      InsertMembers(ls, level, idx);
      assert forall k | 0 <= k < |more| :: more[k] == if k < idx then ls[k] else if k == idx then level else ls[k - 1];
    }

    lemma InsertHolds(L: Ladder, level: MatchEngineEntry, idx: nat)
      requires OnBook(side) && Holds(L) && idx <= |levels| && level.Price !in byPrice
      requires level in Owned && level.Orders in Owned && level.Orders.Spine <= Owned && level.Valid()
      requires |level.Orders.Queue| == 1 && forall l | l in levels :: l.Orders != level.Orders
      requires forall k | 0 <= k < |L| :: Past(L[k].price, level.Price, false) <==> idx <= k
      ensures HoldsAs(levels[..idx] + [level] + levels[idx..], byPrice[level.Price := level],
                      Put(side, L, level.Price, QueueAt(L, level.Price) + level.Orders.Queue))
      ensures QueueAt(L, level.Price) == []
    {
      var q := level.Orders.Queue;
      InsertShape(L, level.Price, idx, q);
      InsertIndexed(levels, byPrice, level, idx);
      InsertOrdered(L, level, idx, q);
      InsertFilled(L, level, idx);
    }

    lemma InsertShape(L: Ladder, p: Px, idx: nat, q: seq<Order>)
      requires OnBook(side) && Ordered(levels, L) && Indexed(levels, byPrice) && p !in byPrice && q != [] && idx <= |L|
      requires forall k | 0 <= k < |L| :: Past(L[k].price, p, false) <==> idx <= k
      ensures QueueAt(L, p) == []
      ensures Put(side, L, p, QueueAt(L, p) + q) == L[..idx] + [Ladders.Level(p, q)] + L[idx..]
      ensures forall k | 0 <= k < idx :: Better(side, L[k].price, p)
      ensures forall k | idx <= k < |L| :: Better(side, p, L[k].price)
    {
      forall k | 0 <= k < |L| ensures L[k].price != p {
        assert levels[k].Price in byPrice;
      }
      PutInserts(side, L, idx, p, q);
      assert [] + q == q;
    }
  }
}
