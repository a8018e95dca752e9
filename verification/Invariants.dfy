// The representation invariant of the book, as a property of its value, and what every
// operation does to it.
module Invariants {
  import opened Orders
  import opened Ladders
  import opened Matching
  import opened Books

  ghost predicate QueueOk(s: Side, p: Px, q: seq<Order>) {
    forall i | 0 <= i < |q| :: q[i].side == s && q[i].price == p && q[i].volume > 0
  }

  ghost predicate SideOk(s: Side, L: Ladder) {
    Proper(s, L) && forall p :: QueueOk(s, p, QueueAt(L, p))
  }

  // All of the invariant that does not speak of ids.
  ghost predicate SidesOk(b: Book) {
    SideOk(BUY, b.bids) && SideOk(SELL, b.asks)
  }

  ghost predicate Placed(s: Side, p: Px, q: seq<Order>) {
    forall i | 0 <= i < |q| :: q[i].side == s && q[i].price == p
  }

  // Nor of volumes: sorted ladders without empty levels, every order where it belongs.
  ghost predicate Ranked(b: Book) {
    && Proper(BUY, b.bids) && (forall p :: Placed(BUY, p, QueueAt(b.bids, p)))
    && Proper(SELL, b.asks) && (forall p :: Placed(SELL, p, QueueAt(b.asks, p)))
  }

  lemma SidesRanked(b: Book)
    requires SidesOk(b)
    ensures Ranked(b)
  {
    forall p ensures Placed(BUY, p, QueueAt(b.bids, p)) && Placed(SELL, p, QueueAt(b.asks, p)) {
      assert QueueOk(BUY, p, QueueAt(b.bids, p)) && QueueOk(SELL, p, QueueAt(b.asks, p));
    }
  }

  lemma PutRanked(b: Book, s: Side, p: Px, q: seq<Order>)
    requires Ranked(b) && OnBook(s) && Placed(s, p, q)
    ensures Ranked(SetSide(b, s, Put(s, SideOf(b, s), p, q))) && Ranked(Requeue(b, s, p, q))
  {
    PutProper(s, SideOf(b, s), p, q);
    forall x ensures Placed(s, x, QueueAt(Put(s, SideOf(b, s), p, q), x)) {
      QueueAtPut(s, SideOf(b, s), p, q, x);
    }
  }

  // How many resting orders carry this id.
  function Copies(b: Book, id: int): int {
    SumL(b.bids, CountOf(id)) + SumL(b.asks, CountOf(id))
  }

  ghost predicate UniqueIds(b: Book) {
    forall id :: Copies(b, id) <= 1
  }

  // Sorted ladders without empty levels, every resting order positive and at the price and side
  // of its level, no id resting twice.
  ghost predicate Wf(b: Book) {
    SideOk(BUY, b.bids) && SideOk(SELL, b.asks) && UniqueIds(b)
  }

  predicate Resting(b: Book, id: int) {
    Lookup(b, id).Some?
  }

  lemma EmptyWf(symbol: string)
    ensures Wf(Empty(symbol))
  {
  }

  // Only the ladders matter.
  lemma SameLadders(b: Book, c: Book)
    requires b.bids == c.bids && b.asks == c.asks
    ensures Wf(b) <==> Wf(c)
    ensures forall id :: Copies(b, id) == Copies(c, id)
  {
    assert forall id :: Copies(b, id) == Copies(c, id);
  }

  lemma SinkKeeps(b: Book, on: bool)
    ensures Wf(b.(sink := on)) <==> Wf(b)
  {
    SameLadders(b, b.(sink := on));
  }

  lemma ParkKeeps(b: Book, parked: seq<Order>)
    ensures Wf(b.(parked := parked)) <==> Wf(b)
  {
    SameLadders(b, b.(parked := parked));
  }

  lemma WithdrawKeeps(b: Book, o: Order, qty: Qty)
    ensures Wf(Withdraw(b, o, qty)) <==> Wf(b)
    ensures forall id :: Copies(Withdraw(b, o, qty), id) == Copies(b, id)
  {
    SameLadders(b, Withdraw(b, o, qty));
  }

  // ---- counting ----

  lemma {:induction false} CountNonNegative(q: seq<Order>, id: int)
    ensures SumQ(q, CountOf(id)) >= 0
    ensures SumQ(q, CountOf(id)) == 0 <==> IndexOf(q, id) == |q|
  {
    if q != [] { CountNonNegative(q[1..], id); }
  }

  lemma {:induction false} CountLadder(L: Ladder, id: int)
    ensures SumL(L, CountOf(id)) >= 0
    ensures SumL(L, CountOf(id)) == 0 <==> LookupIn(L, id).None?
  {
    if L != [] {
      CountLadder(L[1..], id);
      CountNonNegative(L[0].queue, id);
    }
  }

  lemma RestingIffCounted(b: Book, id: int)
    ensures Copies(b, id) >= 0
    ensures Resting(b, id) <==> Copies(b, id) > 0
  {
    CountLadder(b.bids, id);
    CountLadder(b.asks, id);
  }

  lemma {:induction false} OnlyPosition(q: seq<Order>, k: nat)
    requires k < |q| && SumQ(q, CountOf(q[k].id)) <= 1
    ensures IndexOf(q, q[k].id) == k
    ensures SumQ(q, CountOf(q[k].id)) == 1
  {
    var id := q[k].id;
    CountNonNegative(q, id);
    CountNonNegative(q[1..], id);
    if k > 0 {
      CountNonNegative(q[1..], id);
      assert q[1..][k - 1].id == id;
      OnlyPosition(q[1..], k - 1);
    }
  }

  lemma {:induction false} LookupInExact(L: Ladder, i: nat, k: nat)
    requires i < |L| && k < |L[i].queue|
    requires SumL(L, CountOf(L[i].queue[k].id)) <= 1
    ensures LookupIn(L, L[i].queue[k].id) == Some(L[i].queue[k])
    ensures IndexOf(L[i].queue, L[i].queue[k].id) == k
  {
    var id := L[i].queue[k].id;
    CountLadder(L[1..], id);
    CountNonNegative(L[0].queue, id);
    if i == 0 {
      OnlyPosition(L[0].queue, k);
    } else {
      assert L[1..][i - 1] == L[i];
      LookupInExact(L[1..], i - 1, k);
    }
  }

  lemma {:induction false} LookupInFound(L: Ladder, id: int) returns (i: nat, k: nat)
    requires LookupIn(L, id).Some?
    ensures i < |L| && k < |L[i].queue| && L[i].queue[k] == LookupIn(L, id).value
    ensures L[i].queue[k].id == id && k == IndexOf(L[i].queue, id)
  {
    if IndexOf(L[0].queue, id) < |L[0].queue| {
      i, k := 0, IndexOf(L[0].queue, id);
    } else {
      i, k := LookupInFound(L[1..], id);
      i := i + 1;
    }
  }

  // The order found under an id sits in the queue of its own side and price.
  lemma LookupLocates(b: Book, id: int)
    requires Wf(b) && Resting(b, id)
    ensures var o := Lookup(b, id).value;
      && o.id == id && OnBook(o.side) && o.volume > 0
      && var q := QueueAt(SideOf(b, o.side), o.price);
      && IndexOf(q, id) < |q| && q[IndexOf(q, id)] == o
  {
    SidesRanked(b);
    LadderLocates(b, id);
    var o := Lookup(b, id).value;
    assert QueueOk(o.side, o.price, QueueAt(SideOf(b, o.side), o.price));
  }

  // That takes no promise about ids, nor about volumes.
  lemma LadderLocates(b: Book, id: int)
    requires Ranked(b) && Resting(b, id)
    ensures var o := Lookup(b, id).value;
      && o.id == id && OnBook(o.side)
      && var q := QueueAt(SideOf(b, o.side), o.price);
      && IndexOf(q, id) < |q| && q[IndexOf(q, id)] == o
  {
    var s := if LookupIn(b.bids, id).Some? then BUY else SELL;
    var L := SideOf(b, s);
    var i, k := LookupInFound(L, id);
    QueueAtIndex(s, L, i);
    assert Placed(s, L[i].price, QueueAt(L, L[i].price));
  }

  // ... and any order found resting at a position is the one its id looks up.
  lemma LookupExact(b: Book, s: Side, i: nat, k: nat)
    requires Wf(b) && OnBook(s) && i < |SideOf(b, s)| && k < |SideOf(b, s)[i].queue|
    ensures var level := SideOf(b, s)[i]; var o := level.queue[k];
      && Lookup(b, o.id) == Some(o) && o.side == s && o.price == level.price
      && QueueAt(SideOf(b, s), o.price) == level.queue && IndexOf(level.queue, o.id) == k
  {
    var L := SideOf(b, s);
    var o := L[i].queue[k];
    QueueAtIndex(s, L, i);
    assert QueueOk(s, L[i].price, QueueAt(L, L[i].price));
    assert Copies(b, o.id) <= 1;
    CountLadder(b.bids, o.id);
    CountLadder(b.asks, o.id);
    LookupInExact(L, i, k);
  }

  // Cancelling and reducing, given where the order sits.
  lemma CancelAt(b: Book, s: Side, i: nat, k: nat)
    requires Wf(b) && OnBook(s) && i < |SideOf(b, s)| && k < |SideOf(b, s)[i].queue|
    ensures var level := SideOf(b, s)[i]; var o := level.queue[k];
      && o.side == s && o.price == level.price
      && Cancel(b, o.id).0 ==
           Emit(SetSide(b, s, Put(s, SideOf(b, s), o.price, RemoveAt(level.queue, k)))
                  .(voids := b.voids + [Fill(o, o.volume)]),
                s, o.price, SumQ(RemoveAt(level.queue, k), Volumes()))
  {
    LookupExact(b, s, i, k);
  }

  lemma ReduceAt(b: Book, s: Side, i: nat, k: nat, v: Qty)
    requires Wf(b) && OnBook(s) && i < |SideOf(b, s)| && k < |SideOf(b, s)[i].queue|
    requires v != 0 && v < SideOf(b, s)[i].queue[k].volume
    ensures var level := SideOf(b, s)[i]; var o := level.queue[k];
      && o.side == s && o.price == level.price
      && var q := level.queue[k := o.(volume := v)];
      && ReduceVolume(b, o.id, v).0 ==
           Emit(SetSide(b, s, Put(s, SideOf(b, s), o.price, q)).(voids := b.voids + [Fill(o, o.volume - v)]),
                s, o.price, SumQ(q, Volumes()))
  {
    LookupExact(b, s, i, k);
  }

  // ---- changing one queue ----

  lemma SidePut(s: Side, L: Ladder, p: Px, q: seq<Order>)
    requires OnBook(s) && SideOk(s, L) && QueueOk(s, p, q)
    ensures SideOk(s, Put(s, L, p, q))
  {
    PutProper(s, L, p, q);
    forall x ensures QueueOk(s, x, QueueAt(Put(s, L, p, q), x)) {
      QueueAtPut(s, L, p, q, x);
    }
  }

  function CountDiff(b: Book, s: Side, p: Px, q: seq<Order>, id: int): int {
    SumQ(q, CountOf(id)) - SumQ(QueueAt(SideOf(b, s), p), CountOf(id))
  }

  // Replacing the queue at one price by a good one keeps the book good, if no id gets a
  // second copy.
  lemma PutKeeps(b: Book, s: Side, p: Px, q: seq<Order>)
    requires Wf(b) && OnBook(s) && QueueOk(s, p, q)
    requires forall id :: Copies(b, id) + CountDiff(b, s, p, q, id) <= 1
    ensures Wf(SetSide(b, s, Put(s, SideOf(b, s), p, q)))
    ensures forall id ::
      Copies(SetSide(b, s, Put(s, SideOf(b, s), p, q)), id) == Copies(b, id) + CountDiff(b, s, p, q, id)
  {
    var L := SideOf(b, s);
    PutProper(s, L, p, q);
    forall x ensures QueueOk(s, x, QueueAt(Put(s, L, p, q), x)) {
      QueueAtPut(s, L, p, q, x);
    }
    forall id ensures Copies(SetSide(b, s, Put(s, L, p, q)), id) == Copies(b, id) + CountDiff(b, s, p, q, id)
    {
      SumPut(s, L, p, q, CountOf(id));
    }
  }

  lemma RequeueKeeps(b: Book, s: Side, p: Px, q: seq<Order>)
    requires Wf(b) && OnBook(s) && QueueOk(s, p, q)
    requires forall id :: Copies(b, id) + CountDiff(b, s, p, q, id) <= 1
    ensures Wf(Requeue(b, s, p, q))
    ensures forall id :: Copies(Requeue(b, s, p, q), id) == Copies(b, id) + CountDiff(b, s, p, q, id)
  {
    PutKeeps(b, s, p, q);
    var c, r := SetSide(b, s, Put(s, SideOf(b, s), p, q)), Requeue(b, s, p, q);
    assert r.bids == c.bids && r.asks == c.asks;
    assert forall id :: Copies(r, id) == Copies(c, id);
  }

  // ---- the three resting operations ----

  // Resting an order adds one copy of its id.
  lemma RestCopies(b: Book, o: Order)
    requires Proper(BUY, b.bids) && Proper(SELL, b.asks)
    ensures forall id ::
      Copies(Rest(b, o), id) == Copies(b, id) + if OnBook(o.side) then CountOf(id)(o) else 0
  {
    var r := Rest(b, o);
    if OnBook(o.side) {
      var L := SideOf(b, o.side);
      var q := QueueAt(L, o.price);
      forall id ensures Copies(r, id) == Copies(b, id) + CountOf(id)(o) {
        SumConcat(q, [o], CountOf(id));
        SumPut(o.side, L, o.price, q + [o], CountOf(id));
      }
    } else {
      assert forall id :: Copies(r, id) == Copies(b, id);
    }
  }

  // Resting a positive order keeps the invariant exactly when its id is not resting yet.
  lemma RestKeeps(b: Book, o: Order)
    requires Wf(b) && o.volume > 0
    ensures OnBook(o.side) ==> (Wf(Rest(b, o)) <==> !Resting(b, o.id))
    ensures !OnBook(o.side) ==> Wf(Rest(b, o))
    ensures OnBook(o.side) ==> forall id :: Copies(Rest(b, o), id) == Copies(b, id) + CountOf(id)(o)
    ensures !OnBook(o.side) ==> forall id :: Copies(Rest(b, o), id) == Copies(b, id)
  {
    RestCopies(b, o);
    RestingIffCounted(b, o.id);
    if OnBook(o.side) && !Resting(b, o.id) {
      var q := QueueAt(SideOf(b, o.side), o.price);
      forall id ensures Copies(b, id) + CountOf(id)(o) <= 1 {
        RestingIffCounted(b, id);
      }
      forall id ensures CountDiff(b, o.side, o.price, q + [o], id) == CountOf(id)(o) {
        SumConcat(q, [o], CountOf(id));
      }
      assert QueueOk(o.side, o.price, q);
      RequeueKeeps(b, o.side, o.price, q + [o]);
    }
  }

  // A book that is not well formed stays so when more orders rest.
  lemma RestBroken(b: Book, o: Order)
    requires Ranked(b) && Wf(Rest(b, o))
    ensures Wf(b)
  {
    var r := Rest(b, o);
    RestCopies(b, o);
    assert forall id :: Copies(b, id) <= Copies(r, id);
    forall s, p | OnBook(s) ensures QueueOk(s, p, QueueAt(SideOf(b, s), p)) {
      RestQueueAt(b, o, s, p);
      assert QueueOk(s, p, QueueAt(SideOf(r, s), p));
    }
    assert SideOk(BUY, SideOf(b, BUY)) && SideOk(SELL, SideOf(b, SELL));
  }

  lemma RestQueueAt(b: Book, o: Order, s: Side, p: Px)
    requires Ranked(b) && OnBook(s)
    ensures var q := QueueAt(SideOf(b, s), p);
      |q| <= |QueueAt(SideOf(Rest(b, o), s), p)| && q == QueueAt(SideOf(Rest(b, o), s), p)[..|q|]
  {
    if o.side == s { QueueAtPut(s, SideOf(b, s), o.price, QueueAt(SideOf(b, s), o.price) + [o], p); }
  }

  // ... and resting any order does exactly when the order is positive as well.
  lemma RestExact(b: Book, o: Order)
    requires Wf(b)
    ensures Wf(Rest(b, o)) <==> (OnBook(o.side) ==> o.volume > 0 && !Resting(b, o.id))
  {
    if o.volume > 0 {
      RestKeeps(b, o);
    } else if OnBook(o.side) {
      var L, q := SideOf(b, o.side), QueueAt(SideOf(b, o.side), o.price);
      QueueAtPut(o.side, L, o.price, q + [o], o.price);
      assert (q + [o])[|q|].volume <= 0;
      assert !QueueOk(o.side, o.price, QueueAt(SideOf(Rest(b, o), o.side), o.price));
    } else {
      SameLadders(b, Rest(b, o));
    }
  }

  // Cancelling keeps it, and afterwards the id is free.
  lemma CancelKeeps(b: Book, id: int)
    requires Wf(b)
    ensures Wf(Cancel(b, id).0)
    ensures !Resting(Cancel(b, id).0, id)
    ensures forall x :: Copies(Cancel(b, id).0, x) == if x == id then 0 else Copies(b, x)
  {
    RestingIffCounted(b, id);
    if Resting(b, id) {
      LookupLocates(b, id);
      var o := Lookup(b, id).value;
      var q := QueueAt(SideOf(b, o.side), o.price);
      var k := IndexOf(q, id);
      var b1 := b.(voids := b.voids + [Fill(o, o.volume)]);
      assert Without(q, id) == RemoveAt(q, k);
      assert forall x :: Copies(b1, x) == Copies(b, x);
      forall x ensures SumQ(RemoveAt(q, k), CountOf(x)) == SumQ(q, CountOf(x)) - CountOf(x)(o) {
        SumRemove(q, k, CountOf(x));
      }
      assert QueueOk(o.side, o.price, q);
      RequeueKeeps(b1, o.side, o.price, RemoveAt(q, k));
      assert Copies(b, id) <= 1;
    }
    RestingIffCounted(Cancel(b, id).0, id);
  }

  // The queue that reducing writes back: same ids, one volume changed.
  lemma ReducedQueue(b: Book, id: int, v: Qty)
    requires Wf(b) && Resting(b, id)
    ensures var o := Lookup(b, id).value; var q := QueueAt(SideOf(b, o.side), o.price); var k := IndexOf(q, id);
      && k < |q| && q[k] == o && OnBook(o.side) && QueueOk(o.side, o.price, q)
      && Resized(q, id, v) == q[k := o.(volume := v)]
      && (v > 0 ==> QueueOk(o.side, o.price, Resized(q, id, v)))
      && (v != o.volume ==> Resized(q, id, v) != q)
      && forall x :: SumQ(Resized(q, id, v), CountOf(x)) == SumQ(q, CountOf(x))
  {
    LookupLocates(b, id);
    var o := Lookup(b, id).value;
    var q := QueueAt(SideOf(b, o.side), o.price);
    var k := IndexOf(q, id);
    assert QueueOk(o.side, o.price, q);
    forall x ensures SumQ(q[k := o.(volume := v)], CountOf(x)) == SumQ(q, CountOf(x)) {
      SumUpdate(q, k, o.(volume := v), CountOf(x));
    }
  }

  lemma ReduceKeepsPositive(b: Book, id: int, v: Qty)
    requires Wf(b) && Resting(b, id) && 0 < v < Lookup(b, id).value.volume
    ensures Wf(ReduceVolume(b, id, v).0)
    ensures forall x :: Copies(ReduceVolume(b, id, v).0, x) == Copies(b, x)
  {
    ReducedQueue(b, id, v);
    var o := Lookup(b, id).value;
    var b1 := b.(voids := b.voids + [Fill(o, o.volume - v)]);
    assert forall x :: Copies(b1, x) == Copies(b, x);
    RequeueKeeps(b1, o.side, o.price, Resized(QueueAt(SideOf(b, o.side), o.price), id, v));
  }

  // Reducing in place keeps it exactly when the new volume is not negative.
  lemma ReduceKeeps(b: Book, id: int, v: Qty)
    requires Wf(b) && Resting(b, id) && v < Lookup(b, id).value.volume
    ensures Wf(ReduceVolume(b, id, v).0) <==> v >= 0
  {
    if v == 0 {
      CancelKeeps(b, id);
    } else if v > 0 {
      ReduceKeepsPositive(b, id, v);
    } else {
      ReducedQueue(b, id, v);
      var o := Lookup(b, id).value;
      var L := SideOf(b, o.side);
      var q := QueueAt(L, o.price);
      QueueAtPut(o.side, L, o.price, Resized(q, id, v), o.price);
      assert Resized(q, id, v)[IndexOf(q, id)].volume <= 0;
      assert !QueueOk(o.side, o.price, QueueAt(SideOf(ReduceVolume(b, id, v).0, o.side), o.price));
    }
  }

  lemma ReduceExact(b: Book, id: int, v: Qty)
    requires Wf(b)
    ensures Wf(ReduceVolume(b, id, v).0) <==> !(Resting(b, id) && v < 0)
  {
    CancelKeeps(b, id);
    if Resting(b, id) {
      LookupLocates(b, id);
      if v < Lookup(b, id).value.volume { ReduceKeeps(b, id, v); }
    }
  }

  // ---- matching ----

  lemma {:induction false} GreedyQueueOk(t: Order, remain: Qty, q: seq<Order>, s: Side, p: Px)
    requires QueueOk(s, p, q)
    ensures QueueOk(s, p, Greedy(t, remain, q).rest)
    decreases q
  {
    if remain > 0 && q != [] {
      var h := Step(t, remain, q[0]);
      if h.rest == [] { GreedyQueueOk(t, h.remain, q[1..], s, p); }
    }
  }

  lemma {:induction false} GreedyCounts(t: Order, remain: Qty, q: seq<Order>, id: int)
    ensures SumQ(Greedy(t, remain, q).rest, CountOf(id)) <= SumQ(q, CountOf(id))
    decreases q
  {
    if remain > 0 && q != [] {
      var h := Step(t, remain, q[0]);
      if h.rest == [] {
        GreedyCounts(t, h.remain, q[1..], id);
      } else {
        assert (h.rest + q[1..])[1..] == q[1..];
      }
    }
  }

  // b' rests no id more often than b.
  ghost predicate NoNewCopies(b: Book, b': Book) {
    forall id :: Copies(b', id) <= Copies(b, id)
  }

  lemma LevelStepKeeps(b: Book, t: Order, remain: Qty)
    requires Wf(b) && OnBook(t.side) && SideOf(b, Opposite(t.side)) != []
    ensures Wf(LevelStep(b, t, remain).0) && NoNewCopies(b, LevelStep(b, t, remain).0)
  {
    var s := Opposite(t.side);
    var level := SideOf(b, s)[0];
    var h := Greedy(t, remain, level.queue);
    QueueAtIndex(s, SideOf(b, s), 0);
    assert QueueOk(s, level.price, QueueAt(SideOf(b, s), level.price));
    GreedyQueueOk(t, remain, level.queue, s, level.price);
    forall id ensures CountDiff(b, s, level.price, h.rest, id) <= 0 {
      GreedyCounts(t, remain, level.queue, id);
    }
    PutKeeps(b, s, level.price, h.rest);
    var c, r := SetSide(b, s, Put(s, SideOf(b, s), level.price, h.rest)), LevelStep(b, t, remain).0;
    assert r.bids == c.bids && r.asks == c.asks;
    assert forall id :: Copies(r, id) == Copies(c, id);
  }

  // Without a word about ids.
  lemma LevelStepSides(b: Book, t: Order, remain: Qty)
    requires SidesOk(b) && OnBook(t.side) && SideOf(b, Opposite(t.side)) != []
    ensures SidesOk(LevelStep(b, t, remain).0)
  {
    var s := Opposite(t.side);
    var level := SideOf(b, s)[0];
    var h := Greedy(t, remain, level.queue);
    QueueAtIndex(s, SideOf(b, s), 0);
    assert QueueOk(s, level.price, QueueAt(SideOf(b, s), level.price));
    GreedyQueueOk(t, remain, level.queue, s, level.price);
    SidePut(s, SideOf(b, s), level.price, h.rest);
  }

  lemma {:induction false} GreedyPlaced(t: Order, remain: Qty, q: seq<Order>, s: Side, p: Px)
    requires Placed(s, p, q)
    ensures Placed(s, p, Greedy(t, remain, q).rest)
    decreases q
  {
    if remain > 0 && q != [] {
      var h := Step(t, remain, q[0]);
      if h.rest == [] { GreedyPlaced(t, h.remain, q[1..], s, p); }
    }
  }

  lemma LevelStepRanked(b: Book, t: Order, remain: Qty)
    requires Ranked(b) && OnBook(t.side) && SideOf(b, Opposite(t.side)) != []
    ensures Ranked(LevelStep(b, t, remain).0)
  {
    var s := Opposite(t.side);
    var level := SideOf(b, s)[0];
    QueueAtIndex(s, SideOf(b, s), 0);
    assert Placed(s, level.price, QueueAt(SideOf(b, s), level.price));
    GreedyPlaced(t, remain, level.queue, s, level.price);
    PutRanked(b, s, level.price, Greedy(t, remain, level.queue).rest);
  }

  lemma RestRanked(b: Book, o: Order)
    requires Ranked(b)
    ensures Ranked(Rest(b, o))
  {
    if OnBook(o.side) {
      var q := QueueAt(SideOf(b, o.side), o.price);
      assert Placed(o.side, o.price, q);
      PutRanked(b, o.side, o.price, q + [o]);
    }
  }

  lemma RestSides(b: Book, o: Order)
    requires SidesOk(b) && o.volume > 0
    ensures SidesOk(Rest(b, o))
  {
    if OnBook(o.side) {
      var q := QueueAt(SideOf(b, o.side), o.price);
      assert QueueOk(o.side, o.price, q);
      SidePut(o.side, SideOf(b, o.side), o.price, q + [o]);
    }
  }

  // Matching leaves the taker's own side alone.
  lemma LevelStepKeepsSide(b: Book, t: Order, remain: Qty)
    requires OnBook(t.side) && SideOf(b, Opposite(t.side)) != []
    ensures SideOf(LevelStep(b, t, remain).0, t.side) == SideOf(b, t.side)
  {
  }

  lemma FrontPositive(b: Book, s: Side)
    requires Wf(b) && OnBook(s) && SideOf(b, s) != []
    ensures AllPositive(SideOf(b, s)[0].queue)
  {
    QueueAtIndex(s, SideOf(b, s), 0);
    assert QueueOk(s, SideOf(b, s)[0].price, QueueAt(SideOf(b, s), SideOf(b, s)[0].price));
  }

  lemma {:induction false} MatchLevelsKeeps(b: Book, t: Order, always: bool, remain: Qty)
    requires Wf(b) && OnBook(t.side)
    ensures Wf(MatchLevels(b, t, always, remain).0) && NoNewCopies(b, MatchLevels(b, t, always, remain).0)
    decreases |SideOf(b, Opposite(t.side))|, remain > 0
  {
    var L := SideOf(b, Opposite(t.side));
    if remain > 0 && L != [] && (always || Crosses(t, L[0].price)) {
      var (b1, r1) := LevelStep(b, t, remain);
      LevelStepKeeps(b, t, remain);
      MatchLevelsKeeps(b1, t, always, r1);
    }
  }

  lemma MatchTakerKeeps(b: Book, t: Order, always: bool)
    requires Wf(b)
    ensures Wf(MatchTaker(b, t, always).0) && NoNewCopies(b, MatchTaker(b, t, always).0)
  {
    if OnBook(t.side) { MatchLevelsKeeps(b, t, always, t.volume); }
  }

  // What a modify must not ask for: a negative volume at the resting price.
  predicate ModifyAllowed(b: Book, id: int, p: Px, v: Qty) {
    !(Resting(b, id) && p == Lookup(b, id).value.price && v < 0)
  }
}
