// A price level on the heap: the doubly-linked FIFO queue and the level that owns it.
module Levels {
  import opened Orders

  class OrderNode {
    var order: Order
    var Prev: OrderNode?
    var Next: OrderNode?
    const Level: MatchEngineEntry

    constructor (o: Order, level: MatchEngineEntry)
      ensures order == o && Level == level && Prev == null && Next == null
    {
      order, Level := o, level;
      Prev, Next := null, null;
    }
  }

  ghost predicate SameElements(s: set<OrderNode>, q: seq<OrderNode>) {
    (forall i | 0 <= i < |q| :: q[i] in s) && (forall x | x in s :: x in q)
  }

  lemma SameElementsAppend(s: set<OrderNode>, q: seq<OrderNode>, x: OrderNode)
    requires SameElements(s, q)
    ensures SameElements(s + {x}, q + [x])
  {
    assert (q + [x])[|q|] == x;
    assert forall i | 0 <= i < |q| :: (q + [x])[i] == q[i];
  }

  lemma SameElementsRemove(s: set<OrderNode>, q: seq<OrderNode>, k: nat)
    requires SameElements(s, q) && k < |q|
    requires forall i, j | 0 <= i < j < |q| :: q[i] != q[j]
    ensures SameElements(s - {q[k]}, RemoveAt(q, k))
  {
    var r := RemoveAt(q, k);
    forall x | x in s - {q[k]} ensures x in r {
      var i :| 0 <= i < |q| && q[i] == x;
      assert x == r[if i < k then i else i - 1];
    }
  }

  class OrderList {
    var head: OrderNode?
    var tail: OrderNode?
    var size: nat

    // The linked nodes, oldest first, and the orders they carry.
    ghost var Nodes: seq<OrderNode>
    ghost var Queue: seq<Order>
    ghost var Spine: set<OrderNode>

    ghost predicate Linked(nodes: seq<OrderNode>)
      reads `head, `tail, `size, nodes`Prev, nodes`Next
    {
      && size == |nodes|
      && (nodes == [] ==> head == null && tail == null)
      && (nodes != [] ==>
            && head == nodes[0] && tail == nodes[|nodes| - 1]
            && nodes[0].Prev == null && nodes[|nodes| - 1].Next == null)
      && (forall i {:trigger nodes[i].Prev} | 1 <= i < |nodes| :: nodes[i].Prev == nodes[i - 1])
      && (forall i {:trigger nodes[i].Next} | 0 <= i < |nodes| - 1 :: nodes[i].Next == nodes[i + 1])
      && (forall i, j | 0 <= i < j < |nodes| :: nodes[i] != nodes[j])
    }

    ghost predicate Carries()
      reads `Nodes, `Queue, `Spine, Spine`order
    {
      && SameElements(Spine, Nodes)
      && |Queue| == |Nodes|
      && (forall i | 0 <= i < |Nodes| :: Nodes[i].order == Queue[i])
    }

    ghost predicate Valid()
      reads this, Spine
    {
      Carries() && Linked(Nodes)
    }

    constructor ()
      ensures Valid() && Nodes == [] && Queue == [] && Spine == {}
    {
      head, tail, size := null, null, 0;
      Nodes, Queue, Spine := [], [], {};
    }

    predicate IsEmpty()
      requires Valid()
      reads this, Spine
      ensures IsEmpty() <==> Queue == []
    {
      size == 0
    }

    method PushBack(o: Order, level: MatchEngineEntry) returns (n: OrderNode)
      requires Valid()
      modifies this, Spine`Next
      ensures Valid() && fresh(n) && n.Level == level
      ensures Nodes == old(Nodes) + [n] && Queue == old(Queue) + [o] && Spine == old(Spine) + {n}
    {
      hide SameElements, Linked;
      n := new OrderNode(o, level);
      Link(n);
      SameElementsAppend(Spine, Nodes, n);
      Nodes := Nodes + [n];
      Spine := Spine + {n};
      Queue := Queue + [o];
    }

    // The pointer surgery of PushBack.
    method Link(n: OrderNode)
      requires Linked(Nodes) && SameElements(Spine, Nodes) && n !in Nodes && n.Prev == null && n.Next == null
      modifies `head, `tail, `size, Spine`Next, n`Prev
      ensures Linked(Nodes + [n])
    {
      if tail == null {
        head := n;
      } else {
        n.Prev := tail;
        tail.Next := n;
      }
      tail := n;
      size := size + 1;
    }

    // Arbitrary removal; k is the position of n.
    method Remove(n: OrderNode, ghost k: nat)
      requires Valid() && k < |Nodes| && Nodes[k] == n
      modifies this, Spine`Prev, Spine`Next
      ensures Valid()
      ensures Nodes == RemoveAt(old(Nodes), k) && Queue == RemoveAt(old(Queue), k)
      ensures Spine == old(Spine) - {n}
    {
      hide SameElements, Linked, RemoveAt;
      RemoveAtIs(Nodes, k);
      RemoveAtIs(Queue, k);
      Unlink(n, k);
      Nodes := RemoveAt(Nodes, k);
      Spine := Spine - {n};
      Queue := RemoveAt(Queue, k);
    }

    // The pointer surgery of Remove.
    method Unlink(n: OrderNode, ghost k: nat)
      requires Linked(Nodes) && SameElements(Spine, Nodes) && k < |Nodes| && Nodes[k] == n
      modifies this`head, this`tail, this`size, Spine`Prev, Spine`Next
      ensures Linked(RemoveAt(Nodes, k)) && SameElements(Spine - {n}, RemoveAt(Nodes, k))
    {
      SameElementsRemove(Spine, Nodes, k);
      assert if k == 0 then n.Prev == null else n.Prev == Nodes[k - 1];
      assert if k == |Nodes| - 1 then n.Next == null else n.Next == Nodes[k + 1];
      if n.Prev != null {
        n.Prev.Next := n.Next;
      } else {
        head := n.Next;
      }
      if n.Next != null {
        n.Next.Prev := n.Prev;
      } else {
        tail := n.Prev;
      }
      n.Prev, n.Next := null, null;
      size := size - 1;
      Relinked(Nodes, k);
    }

    // The pointers around position k have been redirected past it.
    lemma Relinked(was: seq<OrderNode>, k: nat)
      requires k < |was| && size == |was| - 1
      requires |was| == 1 ==> head == null && tail == null
      requires |was| > 1 ==>
        && head == was[if k == 0 then 1 else 0]
        && tail == was[if k == |was| - 1 then k - 1 else |was| - 1]
        && was[if k == 0 then 1 else 0].Prev == null
        && was[if k == |was| - 1 then k - 1 else |was| - 1].Next == null
      requires forall i {:trigger was[i].Prev} | 1 <= i < |was| && i != k && i != k + 1 :: was[i].Prev == was[i - 1]
      requires forall i {:trigger was[i].Next} | 0 <= i < |was| - 1 && i != k && i + 1 != k :: was[i].Next == was[i + 1]
      requires 0 < k < |was| - 1 ==> was[k - 1].Next == was[k + 1] && was[k + 1].Prev == was[k - 1]
      requires forall i, j | 0 <= i < j < |was| :: was[i] != was[j]
      ensures Linked(RemoveAt(was, k))
    {
      var now := RemoveAt(was, k);
      assert forall i | 0 <= i < |now| :: now[i] == was[if i < k then i else i + 1];
    }
  }

  class MatchEngineEntry {
    const Price: Px
    const Orders: OrderList
    var totalQty: Qty

    ghost predicate Valid()
      reads this, Orders, Orders.Spine
    {
      && Orders.Valid()
      && (forall n | n in Orders.Spine :: n.Level == this)
      && totalQty == SumQ(Orders.Queue, Volumes())
    }

    constructor (price: Px)
      ensures Valid() && Price == price && fresh(Orders) && Orders.Nodes == [] && Orders.Queue == [] &&
        Orders.Spine == {}
    {
      Price := price;
      Orders := new OrderList();
      totalQty := 0;
    }

    method AddOrder(o: Order) returns (n: OrderNode)
      requires Valid()
      modifies this, Orders, Orders.Spine`Next
      ensures Valid() && fresh(n) && n.Level == this
      ensures Orders.Spine == old(Orders.Spine) + {n}
      ensures Orders.Nodes == old(Orders.Nodes) + [n] && Orders.Queue == old(Orders.Queue) + [o]
    {
      n := Orders.PushBack(o, this);
      totalQty := totalQty + o.volume;
      SumConcat(old(Orders.Queue), [o], Volumes());
    }

    method RemoveNode(n: OrderNode, ghost k: nat)
      requires Valid() && k < |Orders.Nodes| && Orders.Nodes[k] == n
      modifies this, Orders, Orders.Spine`Prev, Orders.Spine`Next
      ensures Valid()
      ensures Orders.Nodes == RemoveAt(old(Orders.Nodes), k)
      ensures Orders.Spine == old(Orders.Spine) - {n}
      ensures Orders.Queue == RemoveAt(old(Orders.Queue), k)
    {
      totalQty := totalQty - n.order.volume;
      Orders.Remove(n, k);
      SumRemove(old(Orders.Queue), k, Volumes());
    }

    method ReduceHead(f: Qty)
      requires Valid() && Orders.Nodes != []
      modifies this`totalQty, Orders`Queue, {Orders.Nodes[0]}`order
      ensures Valid()
      ensures var q := old(Orders.Queue);
        Orders.Queue == q[0 := q[0].(volume := q[0].volume - f)]
    {
      hide SameElements, SumQ;
      ghost var q := Orders.Queue;
      SumUpdate(q, 0, q[0].(volume := q[0].volume - f), Volumes());
      assert forall j | 1 <= j < |q| :: Orders.Nodes[j] != Orders.Nodes[0];
      var head := Orders.head;
      head.order := head.order.(volume := head.order.volume - f);
      totalQty := totalQty - f;
      Orders.Queue := q[0 := q[0].(volume := q[0].volume - f)];
    }

    method ReduceNode(n: OrderNode, newVolume: Qty, ghost k: nat)
      requires Valid() && k < |Orders.Nodes| && Orders.Nodes[k] == n
      modifies this`totalQty, Orders`Queue, n`order
      ensures Valid()
      ensures var q := old(Orders.Queue);
        Orders.Queue == q[k := q[k].(volume := newVolume)]
    {
      hide SameElements, SumQ;
      ghost var q := Orders.Queue;
      SumUpdate(q, k, q[k].(volume := newVolume), Volumes());
      assert forall j | 0 <= j < |q| && j != k :: Orders.Nodes[j] != n;
      var delta := n.order.volume - newVolume;
      n.order := n.order.(volume := newVolume);
      totalQty := totalQty - delta;
      Orders.Queue := q[k := q[k].(volume := newVolume)];
    }
  }
}
