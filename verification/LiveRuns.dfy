// What survives on the live path without any promise of the caller: ids may be re-used, stop
// orders promoted, also twice, and volumes negative. The ladders stay sorted, filled and
// uncrossed; the uniqueness of ids is lost, and with it the order index.
module LiveRuns {
  import opened Orders
  import opened Ladders
  import opened Matching
  import opened Books
  import opened Invariants
  import opened Promotions
  import opened Runs

  // An order with this id rests at position k of the queue at (s, p).
  predicate RestsAt(b: Book, s: Side, p: Px, k: nat, id: int) {
    OnBook(s) && k < |QueueAt(SideOf(b, s), p)| && QueueAt(SideOf(b, s), p)[k].id == id
  }

  function TakeAt(b: Book, s: Side, p: Px, k: nat): Book
    requires k < |QueueAt(SideOf(b, s), p)|
  {
    var q := QueueAt(SideOf(b, s), p);
    Requeue(b.(voids := b.voids + [Fill(q[k], q[k].volume)]), s, p, RemoveAt(q, k))
  }

  function ResizeAt(b: Book, s: Side, p: Px, k: nat, v: Qty): Book
    requires k < |QueueAt(SideOf(b, s), p)|
  {
    var q := QueueAt(SideOf(b, s), p);
    Requeue(b.(voids := b.voids + [Fill(q[k], q[k].volume - v)]), s, p, q[k := q[k].(volume := v)])
  }

  function ModifyAt(b: Book, s: Side, p: Px, k: nat, price: Px, v: Qty): Book
    requires k < |QueueAt(SideOf(b, s), p)|
  {
    var o := QueueAt(SideOf(b, s), p)[k];
    if v == 0 then TakeAt(b, s, p, k)
    else if price == o.price && v < o.volume then ResizeAt(b, s, p, k, v)
    else Submit(TakeAt(b, s, p, k), o.(price := price, volume := v)).book
  }

  // The live book may go from b to c under op. A repeated id leaves open which of its orders
  // the index finds, if any.
  ghost predicate LiveStep(b: Book, op: Op, c: Book) {
    match op
    case New(_) => c == Live(b, op)
    case CancelOp(id) => c == b || exists s, p, k | RestsAt(b, s, p, k, id) :: c == TakeAt(b, s, p, k)
    case ModifyOp(id, price, v) =>
      c == b || exists s, p, k | RestsAt(b, s, p, k, id) :: c == ModifyAt(b, s, p, k, price, v)
  }

  ghost predicate LiveChain(bs: seq<Book>, ops: seq<Op>) {
    |bs| == |ops| + 1 && forall i | 0 <= i < |ops| :: LiveStep(bs[i], ops[i], bs[i + 1])
  }

  // The operation does not ask for a negative volume at the price of an order with its id.
  ghost predicate NoNegativeAsked(b: Book, op: Op) {
    op.ModifyOp? && op.volume < 0 ==> forall s, k :: !RestsAt(b, s, op.price, k, op.id)
  }

  lemma QueuePlaced(b: Book, s: Side, p: Px)
    requires InOrder(b) && OnBook(s)
    ensures Placed(s, p, QueueAt(SideOf(b, s), p))
    ensures SidesOk(b) ==> QueueOk(s, p, QueueAt(SideOf(b, s), p))
  {
  }

  lemma TakeLadders(b: Book, s: Side, p: Px, k: nat)
    requires InOrder(b) && OnBook(s) && k < |QueueAt(SideOf(b, s), p)|
    ensures InOrder(TakeAt(b, s, p, k)) && (SidesOk(b) ==> SidesOk(TakeAt(b, s, p, k)))
  {
    hide Requeue, InOrder, SidesOk;
    var q := QueueAt(SideOf(b, s), p);
    var b1 := b.(voids := b.voids + [Fill(q[k], q[k].volume)]);
    QueuePlaced(b, s, p);
    SameInOrder(b, b1);
    RequeueInOrder(b1, s, p, RemoveAt(q, k));
  }

  lemma ModifyLadders(b: Book, s: Side, p: Px, k: nat, price: Px, v: Qty)
    requires InOrder(b) && OnBook(s) && k < |QueueAt(SideOf(b, s), p)|
    ensures InOrder(ModifyAt(b, s, p, k, price, v))
    ensures SidesOk(b) && !(price == p && v < 0) ==> SidesOk(ModifyAt(b, s, p, k, price, v))
  {
    hide Requeue, InOrder, SidesOk, Submit;
    var q := QueueAt(SideOf(b, s), p);
    QueuePlaced(b, s, p);
    TakeLadders(b, s, p, k);
    if v != 0 {
      if price == q[k].price && v < q[k].volume {
        var b1 := b.(voids := b.voids + [Fill(q[k], q[k].volume - v)]);
        SameInOrder(b, b1);
        RequeueInOrder(b1, s, p, q[k := q[k].(volume := v)]);
      } else {
        SubmitLadders(TakeAt(b, s, p, k), q[k].(price := price, volume := v));
      }
    }
  }

  lemma LiveLadders(b: Book, op: Op)
    requires InOrder(b) && op.New?
    ensures InOrder(Live(b, op)) && (SidesOk(b) ==> SidesOk(Live(b, op)))
  {
    hide InOrder, SidesOk;
    var r := Apply(b, op);
    SubmitLadders(b, op.order);
    PromoteLadders(r.book, r.book.parked, r.result.matches);
  }

  lemma LiveStepLadders(b: Book, op: Op, c: Book)
    requires InOrder(b) && LiveStep(b, op, c)
    ensures InOrder(c)
    ensures SidesOk(b) && NoNegativeAsked(b, op) ==> SidesOk(c)
  {
    hide InOrder, SidesOk, Live, TakeAt, ModifyAt;
    match op
    case New(_) => LiveLadders(b, op);
    case CancelOp(id) =>
      if c != b {
        var s, p, k :| RestsAt(b, s, p, k, id) && c == TakeAt(b, s, p, k);
        TakeLadders(b, s, p, k);
      }
    case ModifyOp(id, price, v) =>
      if c != b {
        var s, p, k :| RestsAt(b, s, p, k, id) && c == ModifyAt(b, s, p, k, price, v);
        ModifyLadders(b, s, p, k, price, v);
      }
  }

  // Over every live run, whatever the ids and volumes: sorted ladders without empty levels, every
  // order where it belongs, the best bid below the best ask.
  lemma {:induction false} LiveNeverCrosses(bs: seq<Book>, ops: seq<Op>, n: nat)
    requires LiveChain(bs, ops) && n <= |ops| && InOrder(bs[0])
    ensures InOrder(bs[n])
    ensures bs[n].bids != [] && bs[n].asks != [] ==> bs[n].bids[0].price < bs[n].asks[0].price
    decreases n
  {
    hide LiveStep;
    if n > 0 {
      LiveNeverCrosses(bs, ops, n - 1);
      assert LiveStep(bs[n - 1], ops[n - 1], bs[n - 1 + 1]);
      LiveStepLadders(bs[n - 1], ops[n - 1], bs[n]);
    }
    Spread(bs[n]);
  }

  // And every volume stays positive as long as no modify asks for a negative one in place.
  lemma {:induction false} LiveStaysPositive(bs: seq<Book>, ops: seq<Op>, n: nat)
    requires LiveChain(bs, ops) && n <= |ops| && InOrder(bs[0]) && SidesOk(bs[0])
    requires forall i | 0 <= i < n :: NoNegativeAsked(bs[i], ops[i])
    ensures SidesOk(bs[n])
    decreases n
  {
    hide LiveStep, InOrder, SidesOk, NoNegativeAsked;
    if n > 0 {
      LiveStaysPositive(bs, ops, n - 1);
      LiveNeverCrosses(bs, ops, n - 1);
      assert LiveStep(bs[n - 1], ops[n - 1], bs[n - 1 + 1]);
      LiveStepLadders(bs[n - 1], ops[n - 1], bs[n]);
    }
  }

  // What the market does by the order it looks up is such a step.
  lemma LiveIsStep(b: Book, op: Op)
    requires Ranked(b)
    ensures LiveStep(b, op, Live(b, op))
  {
    hide Submit, Requeue, Put, SideOk, UniqueIds;
    if !op.New? && Resting(b, op.id) {
      LadderLocates(b, op.id);
      var o := Lookup(b, op.id).value;
      var k := IndexOf(QueueAt(SideOf(b, o.side), o.price), op.id);
      assert RestsAt(b, o.side, o.price, k, op.id);
      assert TakeAt(b, o.side, o.price, k) == Cancel(b, op.id).0;
      if op.ModifyOp? {
        assert Live(b, op) == ModifyAt(b, o.side, o.price, k, op.price, op.volume);
      }
    }
  }
}
