// The order book as a value, and every operation of the engine as a function on it. The heap
// classes are proved to compute these functions; the theorems about runs are about them.
module Books {
  import opened Orders
  import opened Ladders
  import opened Matching

  // `sink` says whether an L2 callback is installed. `tape` lists the trades and deltas in the
  // order they drew their sequence numbers. `voids` is the ledger of withdrawn volume, which
  // the program itself does not keep.
  datatype Book = Book(
    symbol: string,
    bids: Ladder,
    asks: Ladder,
    parked: seq<Order>,
    seqNo: nat,
    sink: bool,
    tape: seq<Event>,
    voids: seq<Fill>)

  datatype Result = Result(matches: seq<Match>, accepted: bool, reason: string)

  datatype Outcome = Outcome(book: Book, result: Result)

  datatype Error = NoError | CancelOrderFailed | ModifyIncrease

  const REJECT_FOK_UNFILLABLE := "fok_not_fully_fillable"
  const REJECT_POST_ONLY_CROSSED := "post_only_would_cross"
  const REJECT_UNSUPPORTED_TYPE := "unsupported_order_type"
  const REJECT_MODIFY_NOT_FOUND := "modify_order_not_found"

  function ErrorText(e: Error): string {
    match e
    case NoError => ""
    case CancelOrderFailed => "cancelling order failed"
    case ModifyIncrease => "reduce: new volume must be smaller than resting"
  }

  function KindText(k: OrderType): string {
    match k
    case LIMIT => "limit"
    case MARKET => "market"
    case STOP_LIMIT => "stop_limit"
    case OtherType(tag) => tag
  }

  function Empty(symbol: string): Book {
    Book(symbol, [], [], [], 0, false, [], [])
  }

  function SideOf(b: Book, s: Side): Ladder {
    if s.BUY? then b.bids else b.asks
  }

  function SetSide(b: Book, s: Side, L: Ladder): Book {
    if s.BUY? then b.(bids := L) else b.(asks := L)
  }

  function Emit(b: Book, s: Side, p: Px, qty: Qty): Book {
    if !b.sink then b
    else b.(seqNo := b.seqNo + 1, tape := b.tape + [Delta(BookDelta(b.seqNo + 1, b.symbol, s, p, qty))])
  }

  function Withdraw(b: Book, o: Order, qty: Qty): Book {
    if qty > 0 then b.(voids := b.voids + [Fill(o, qty)]) else b
  }

  // Gives the level at p the queue q and publishes its new total.
  function Requeue(b: Book, s: Side, p: Px, q: seq<Order>): Book {
    Emit(SetSide(b, s, Put(s, SideOf(b, s), p, q)), s, p, SumQ(q, Volumes()))
  }

  // ---- resting, cancelling, reducing ----

  function Rest(b: Book, o: Order): Book {
    if OnBook(o.side) then Requeue(b, o.side, o.price, QueueAt(SideOf(b, o.side), o.price) + [o])
    else Withdraw(b, o, o.volume)
  }

  // First position of an id in a queue, its length if absent.
  function IndexOf(q: seq<Order>, id: int): (k: nat)
    ensures k <= |q|
    ensures k < |q| ==> q[k].id == id
    ensures forall j | 0 <= j < k :: q[j].id != id
  {
    if q == [] || q[0].id == id then 0 else 1 + IndexOf(q[1..], id)
  }

  function LookupIn(L: Ladder, id: int): Option<Order> {
    if L == [] then None
    else if IndexOf(L[0].queue, id) < |L[0].queue| then Some(L[0].queue[IndexOf(L[0].queue, id)])
    else LookupIn(L[1..], id)
  }

  function Lookup(b: Book, id: int): Option<Order> {
    if LookupIn(b.bids, id).Some? then LookupIn(b.bids, id) else LookupIn(b.asks, id)
  }

  function Without(q: seq<Order>, id: int): seq<Order> {
    var k := IndexOf(q, id);
    if k < |q| then q[..k] + q[k + 1..] else q
  }

  function Resized(q: seq<Order>, id: int, v: Qty): seq<Order> {
    var k := IndexOf(q, id);
    if k < |q| then q[k := q[k].(volume := v)] else q
  }

  function Cancel(b: Book, id: int): (Book, Error) {
    match Lookup(b, id)
    case None => (b, CancelOrderFailed)
    case Some(o) =>
      var b1 := b.(voids := b.voids + [Fill(o, o.volume)]);
      (Requeue(b1, o.side, o.price, Without(QueueAt(SideOf(b, o.side), o.price), id)), NoError)
  }

  function ReduceVolume(b: Book, id: int, v: Qty): (Book, Error) {
    if v == 0 then Cancel(b, id)
    else match Lookup(b, id)
      case None => (b, CancelOrderFailed)
      case Some(o) =>
        if v >= o.volume then (b, ModifyIncrease)
        else
          var b1 := b.(voids := b.voids + [Fill(o, o.volume - v)]);
          (Requeue(b1, o.side, o.price, Resized(QueueAt(SideOf(b, o.side), o.price), id, v)), NoError)
  }

  // ---- matching ----

  function Record(b: Book, t: Order, fills: seq<Fill>, price: Px): (b': Book)
    ensures b.tape <= b'.tape
    ensures b' == b.(seqNo := b'.seqNo, tape := b'.tape)
    decreases fills
  {
    if fills == [] then b
    else
      var m := MakeMatch(t, fills[0].order.id, price, fills[0].qty, b.seqNo + 1);
      Record(b.(seqNo := b.seqNo + 1, tape := b.tape + [Trade(m)]), t, fills[1..], price)
  }

  // Everything the taker does at the best level of the opposite side.
  function LevelStep(b: Book, t: Order, remain: Qty): (r: (Book, Qty))
    requires OnBook(t.side) && SideOf(b, Opposite(t.side)) != []
    ensures b.tape <= r.0.tape && r.0.sink == b.sink
    ensures |SideOf(r.0, Opposite(t.side))| < |SideOf(b, Opposite(t.side))| ||
            (|SideOf(r.0, Opposite(t.side))| == |SideOf(b, Opposite(t.side))| && r.1 <= 0)
  {
    var s := Opposite(t.side);
    var level := SideOf(b, s)[0];
    var h := Greedy(t, remain, level.queue);
    var b1 := Record(b, t, h.fills, level.price);
    var b2 := SetSide(b1.(voids := b.voids + h.cuts), s, Put(s, SideOf(b, s), level.price, h.rest));
    (if h.rest == level.queue then b2 else Emit(b2, s, level.price, SumQ(h.rest, Volumes())), h.remain)
  }

  function MatchLevels(b: Book, t: Order, always: bool, remain: Qty): (r: (Book, Qty))
    requires OnBook(t.side)
    ensures b.tape <= r.0.tape && r.0.sink == b.sink
    decreases |SideOf(b, Opposite(t.side))|, remain > 0
  {
    var L := SideOf(b, Opposite(t.side));
    if remain <= 0 || L == [] || !(always || Crosses(t, L[0].price)) then (b, remain)
    else
      var (b1, r1) := LevelStep(b, t, remain);
      MatchLevels(b1, t, always, r1)
  }

  function MatchTaker(b: Book, t: Order, always: bool): (r: (Book, Qty))
    ensures b.tape <= r.0.tape && r.0.sink == b.sink
  {
    if OnBook(t.side) then MatchLevels(b, t, always, t.volume) else (b, t.volume)
  }

  function TradesOf(es: seq<Event>): seq<Match> {
    if es == [] then []
    else (if es[0].Trade? then [es[0].m] else []) + TradesOf(es[1..])
  }

  // The matches reported by an operation that took the book from b to b'.
  function TradesSince(b: Book, b': Book): seq<Match>
    requires b.tape <= b'.tape
  {
    TradesOf(b'.tape[|b.tape|..])
  }

  // ---- the engine ----

  function WouldCross(b: Book, t: Order): bool {
    OnBook(t.side) &&
    var L := SideOf(b, Opposite(t.side));
    L != [] && Crosses(t, L[0].price)
  }

  // The levels a limit order could take from.
  function Crossing(L: Ladder, t: Order): Ladder {
    if L == [] || !Crosses(t, L[0].price) then [] else [L[0]] + Crossing(L[1..], t)
  }

  function Reachable(b: Book, t: Order): seq<Order> {
    if OnBook(t.side) then Flat(Crossing(SideOf(b, Opposite(t.side)), t)) else []
  }

  // The orders of q, taken one by one, bring the need to zero or below.
  predicate Covers(q: seq<Order>, need: Qty)
    decreases q
  {
    q != [] && (need - q[0].volume <= 0 || Covers(q[1..], need - q[0].volume))
  }

  // The fill-or-kill check.
  predicate CanFullyFill(b: Book, t: Order) {
    Covers(Reachable(b, t), t.volume)
  }

  function HandleLimit(b: Book, o: Order): (r: Outcome)
    ensures b.tape <= r.book.tape && r.book.sink == b.sink
  {
    if o.tif.PostOnly? && WouldCross(b, o) then
      Outcome(b, Result([], false, REJECT_POST_ONLY_CROSSED))
    else if o.tif.FOK? && !CanFullyFill(b, o) then
      Outcome(b, Result([], false, REJECT_FOK_UNFILLABLE))
    else
      var (b1, remain) := MatchTaker(b, o, false);
      var b2 :=
        if o.tif.IOC? || o.tif.FOK? then Withdraw(b1, o, remain)
        else if remain > 0 then Rest(b1, o.(volume := remain))
        else b1;
      Outcome(b2, Result(TradesSince(b, b1), true, ""))
  }

  function HandleMarket(b: Book, o: Order): (r: Outcome)
    ensures b.tape <= r.book.tape && r.book.sink == b.sink
  {
    var (b1, remain) := MatchTaker(b, o, true);
    Outcome(Withdraw(b1, o, remain), Result(TradesSince(b, b1), true, ""))
  }

  function HandleStopLimit(b: Book, o: Order): (r: Outcome)
    ensures b.tape <= r.book.tape && r.book.sink == b.sink
  {
    if IsTriggered(o, 0) then HandleLimit(b, o)
    else Outcome(b.(parked := b.parked + [o]), Result([], true, ""))
  }

  function Submit(b: Book, order: Order): (r: Outcome)
    ensures b.tape <= r.book.tape && r.book.sink == b.sink
  {
    var o := Normalize(order);
    match o.kind
    case LIMIT => HandleLimit(b, o)
    case MARKET => HandleMarket(b, o)
    case STOP_LIMIT => HandleStopLimit(b, o)
    case OtherType(_) => Outcome(b, Result([], false, REJECT_UNSUPPORTED_TYPE + ": " + KindText(o.kind)))
  }

  function Modify(b: Book, id: int, p: Px, v: Qty): (r: Outcome)
    ensures b.tape <= r.book.tape && r.book.sink == b.sink
  {
    match Lookup(b, id)
    case None => Outcome(b, Result([], false, REJECT_MODIFY_NOT_FOUND))
    case Some(o) =>
      if v == 0 then Outcome(Cancel(b, id).0, Result([], true, ""))
      else if p == o.price && v < o.volume then
        var (b1, e) := ReduceVolume(b, id, v);
        Outcome(b1, Result([], e.NoError?, ErrorText(e)))
      else
        var (b1, e) := Cancel(b, id);
        if !e.NoError? then Outcome(b1, Result([], false, ErrorText(e)))
        else Submit(b1, o.(price := p, volume := v))
  }

  // ---- operations as data: the journal's records ----

  datatype Op = New(order: Order) | CancelOp(id: int) | ModifyOp(id: int, price: Px, volume: Qty)

  function Apply(b: Book, op: Op): (r: Outcome)
    ensures b.tape <= r.book.tape && r.book.sink == b.sink
  {
    match op
    case New(o) => Submit(b, o)
    case CancelOp(id) => var (b1, e) := Cancel(b, id); Outcome(b1, Result([], e.NoError?, ErrorText(e)))
    case ModifyOp(id, p, v) => Modify(b, id, p, v)
  }

  function Run(b: Book, ops: seq<Op>): (b': Book)
    ensures b.tape <= b'.tape && b'.sink == b.sink
    decreases |ops|
  {
    if ops == [] then b else Apply(Run(b, ops[..|ops| - 1]), ops[|ops| - 1]).book
  }
}
