// Snapshots: the book as a plain record with its numbers as text, and back by re-adding every
// order.
module Snapshot {
  import opened Orders
  import opened Ladders
  import opened Books
  import opened Invariants
  import opened Crossings
  import opened Fixed

  datatype ProtoOrder = ProtoOrder(
    id: int,
    symbol: string,
    side: Side,
    price: string,
    volume: string,
    kind: OrderType,
    trigger: string,
    userID: int,
    tif: TIF,
    stp: STPMode)

  datatype ProtoEntry = ProtoEntry(price: string, orders: seq<ProtoOrder>)

  datatype ProtoBook = ProtoBook(
    symbol: string,
    buy: seq<ProtoEntry>,
    sell: seq<ProtoEntry>,
    conditional: seq<ProtoOrder>,
    seqNo: nat)

  // ---- one order ----

  // A zero trigger is written as the empty string.
  function OrderToProto(o: Order): ProtoOrder {
    ProtoOrder(o.id, o.symbol, o.side, FormatFixed(o.price), FormatFixed(o.volume), o.kind,
               if o.trigger == 0 then "" else FormatFixed(o.trigger), o.userID, o.tif, o.stp)
  }

  // None stands for the panic on a corrupt number.
  function OrderFromProto(p: ProtoOrder): Option<Order> {
    var price, volume := Parse(p.price), Parse(p.volume);
    var trigger := if p.trigger == "" then Ok(0) else Parse(p.trigger);
    if price.Ok? && volume.Ok? && trigger.Ok?
    then Some(Order(p.id, p.symbol, p.userID, p.side, p.kind, p.tif, p.stp, price.value, trigger.value, volume.value))
    else None
  }

  predicate Machine(o: Order) {
    Int64(o.price) && Int64(o.volume) && Int64(o.trigger)
  }

  predicate Printable(o: Order) {
    o.price != MIN64 && o.volume != MIN64 && o.trigger != MIN64
  }

  lemma OrderRoundTrip(o: Order)
    requires Machine(o)
    ensures OrderFromProto(OrderToProto(o)) == Some(o) <==> Printable(o)
    ensures !Printable(o) ==> OrderFromProto(OrderToProto(o)) == None
  {
    hide Parse, FormatFixed;
    RoundTrip(o.price);
    RoundTrip(o.volume);
    RoundTrip(o.trigger);
    FormatNotEmpty(o.trigger);
  }

  lemma FormatNotEmpty(v: int)
    ensures FormatFixed(v) != ""
  {
  }

  // ---- the book ----

  function OrdersToProto(q: seq<Order>): (r: seq<ProtoOrder>)
    ensures |r| == |q|
  {
    if q == [] then [] else [OrderToProto(q[0])] + OrdersToProto(q[1..])
  }

  lemma {:induction false} OrderAt(q: seq<Order>, i: nat)
    requires i < |q|
    ensures OrdersToProto(q)[i] == OrderToProto(q[i])
  {
    hide OrderToProto;
    if i > 0 { OrderAt(q[1..], i - 1); }
  }

  function EntriesToProto(L: Ladder): (r: seq<ProtoEntry>)
    ensures |r| == |L|
  {
    if L == [] then [] else [EntryToProto(L[0])] + EntriesToProto(L[1..])
  }

  function EntryToProto(l: Level): ProtoEntry {
    ProtoEntry(FormatFixed(l.price), OrdersToProto(l.queue))
  }

  lemma {:induction false} EntryAt(L: Ladder, i: nat)
    requires i < |L|
    ensures EntriesToProto(L)[i] == EntryToProto(L[i])
  {
    hide EntryToProto;
    if i > 0 { EntryAt(L[1..], i - 1); }
  }

  lemma {:induction false} ProtoSnoc(q: seq<Order>, k: nat)
    requires k < |q|
    ensures OrdersToProto(q)[..k + 1] == OrdersToProto(q)[..k] + [OrderToProto(q[k])]
  {
    hide OrderToProto, OrdersToProto;
    var r := OrdersToProto(q);
    OrderAt(q, k);
    assert r[..k + 1] == r[..k] + [r[k]];
  }

  lemma {:induction false} EntrySnoc(L: Ladder, i: nat)
    requires i < |L|
    ensures EntriesToProto(L)[..i + 1] == EntriesToProto(L)[..i] + [EntryToProto(L[i])]
  {
    hide EntryToProto, EntriesToProto;
    var r := EntriesToProto(L);
    EntryAt(L, i);
    assert r[..i + 1] == r[..i] + [r[i]];
  }

  function BookToProto(b: Book): ProtoBook {
    ProtoBook(b.symbol, EntriesToProto(b.bids), EntriesToProto(b.asks), OrdersToProto(b.parked), b.seqNo)
  }

  // The orders of the entries, in the order they are read.
  function OrdersOf(es: seq<ProtoEntry>): seq<ProtoOrder> {
    if es == [] then [] else es[0].orders + OrdersOf(es[1..])
  }

  // Adding orders one after the other; None as soon as one is corrupt.
  function AddAll(b: Book, ps: seq<ProtoOrder>): Option<Book>
    decreases ps
  {
    if ps == [] then Some(b)
    else match OrderFromProto(ps[0])
      case None => None
      case Some(o) => AddAll(Rest(b, o), ps[1..])
  }

  function ParkAll(b: Book, ps: seq<ProtoOrder>): Option<Book>
    decreases ps
  {
    if ps == [] then Some(b)
    else match OrderFromProto(ps[0])
      case None => None
      case Some(o) => ParkAll(b.(parked := b.parked + [o]), ps[1..])
  }

  function BookFromProto(p: ProtoBook): Option<Book> {
    match AddAll(Empty(p.symbol).(seqNo := p.seqNo), OrdersOf(p.buy) + OrdersOf(p.sell))
    case None => None
    case Some(b) => ParkAll(b, p.conditional)
  }

  // What a restored book is: everything but the sink and the history.
  function Restored(b: Book): Book {
    Book(b.symbol, b.bids, b.asks, b.parked, b.seqNo, false, [], [])
  }

  function Everything(b: Book): seq<Order> {
    Flat(b.bids) + Flat(b.asks)
  }

  // ---- re-adding in order rebuilds the ladders ----

  function RestAll(b: Book, q: seq<Order>): Book
    decreases q
  {
    if q == [] then b else RestAll(Rest(b, q[0]), q[1..])
  }

  lemma {:induction false} RestAllConcat(b: Book, q: seq<Order>, r: seq<Order>)
    ensures RestAll(b, q + r) == RestAll(RestAll(b, q), r)
    decreases q
  {
    if q == [] {
      assert q + r == r;
    } else {
      assert (q + r)[1..] == q[1..] + r;
      RestAllConcat(Rest(b, q[0]), q[1..], r);
    }
  }

  // A whole queue of one price.
  lemma {:induction false} RestQueue(b: Book, s: Side, p: Px, q: seq<Order>)
    requires OnBook(s) && Proper(s, SideOf(b, s)) && QueueOk(s, p, q) && !b.sink
    ensures RestAll(b, q) == SetSide(b, s, Put(s, SideOf(b, s), p, QueueAt(SideOf(b, s), p) + q))
    decreases q
  {
    var L := SideOf(b, s);
    var r := QueueAt(L, p);
    if q == [] {
      assert r + q == r;
      PutSame(s, L, p);
    } else {
      var b1 := Rest(b, q[0]);
      var M := Put(s, L, p, r + [q[0]]);
      assert b1 == SetSide(b, s, M);
      PutProper(s, L, p, r + [q[0]]);
      QueueAtPut(s, L, p, r + [q[0]], p);
      RestQueue(b1, s, p, q[1..]);
      assert r + [q[0]] + q[1..] == r + q;
      PutPut(s, L, p, r + [q[0]], r + q);
    }
  }

  // The next level of a ladder goes behind those before it.
  lemma PutNext(s: Side, L: Ladder, k: nat)
    requires OnBook(s) && Proper(s, L) && k < |L|
    ensures Proper(s, L[..k])
    ensures Put(s, L[..k], L[k].price, QueueAt(L[..k], L[k].price) + L[k].queue) == L[..k + 1]
  {
    var A, l := L[..k], L[k];
    assert forall i | 0 <= i < k :: Better(s, L[i].price, l.price);
    PutInserts(s, A, k, l.price, l.queue);
    assert [] + l.queue == l.queue;
    TakeSnoc(L, k);
    assert A[..k] == A && A[k..] == [];
  }

  // A whole ladder, best level first: after n levels the side is their prefix.
  lemma {:induction false} RestLadder(b: Book, s: Side, L: Ladder, n: nat)
    requires OnBook(s) && SideOk(s, L) && n <= |L| && !b.sink && SideOf(b, s) == []
    ensures RestAll(b, Flat(L[..n])) == SetSide(b, s, L[..n])
    decreases n
  {
    hide Put, Proper, QueueAt, Flat, Rest;
    FlatSnoc(L, 0);
    if n > 0 {
      var k := n - 1;
      RestLadder(b, s, L, k);
      FlatSnoc(L, k);
      RestAllConcat(b, Flat(L[..k]), L[k].queue);
      SidePositive(s, L, k);
      PutNext(s, L, k);
      RestQueue(SetSide(b, s, L[..k]), s, L[k].price, L[k].queue);
    }
  }

  lemma RestEverything(b: Book, e: Book)
    requires SideOk(BUY, b.bids) && SideOk(SELL, b.asks)
    requires e.bids == [] && e.asks == [] && !e.sink
    ensures RestAll(e, Everything(b)) == e.(bids := b.bids, asks := b.asks)
  {
    RestAllConcat(e, Flat(b.bids), Flat(b.asks));
    RestLadder(e, BUY, b.bids, |b.bids|);
    assert b.bids[..|b.bids|] == b.bids && b.asks[..|b.asks|] == b.asks;
    RestLadder(e.(bids := b.bids), SELL, b.asks, |b.asks|);
  }

  // ---- the round trip ----

  lemma {:induction false} AddAllReads(b: Book, q: seq<Order>)
    requires forall i | 0 <= i < |q| :: Machine(q[i])
    ensures (forall i | 0 <= i < |q| :: Printable(q[i])) ==> AddAll(b, OrdersToProto(q)) == Some(RestAll(b, q))
    ensures !(forall i | 0 <= i < |q| :: Printable(q[i])) ==> AddAll(b, OrdersToProto(q)) == None
    decreases q
  {
    hide OrderFromProto, OrderToProto, Machine, Printable, Rest;
    if q != [] {
      OrderRoundTrip(q[0]);
      AddAllReads(Rest(b, q[0]), q[1..]);
      assert forall i | 1 <= i < |q| :: q[i] == q[1..][i - 1];
    }
  }

  lemma {:induction false} ParkAllReads(b: Book, q: seq<Order>)
    requires forall i | 0 <= i < |q| :: Machine(q[i])
    ensures (forall i | 0 <= i < |q| ::
      Printable(q[i])) ==> ParkAll(b, OrdersToProto(q)) == Some(b.(parked := b.parked + q))
    ensures !(forall i | 0 <= i < |q| :: Printable(q[i])) ==> ParkAll(b, OrdersToProto(q)) == None
    decreases q
  {
    hide OrderFromProto, OrderToProto, Machine, Printable;
    if q == [] {
      assert b.parked + q == b.parked;
    } else {
      OrderRoundTrip(q[0]);
      ParkAllReads(b.(parked := b.parked + [q[0]]), q[1..]);
      assert b.parked + [q[0]] + q[1..] == b.parked + q;
      assert forall i | 1 <= i < |q| :: q[i] == q[1..][i - 1];
    }
  }

  lemma {:induction false} ProtoConcat(q: seq<Order>, r: seq<Order>)
    ensures OrdersToProto(q + r) == OrdersToProto(q) + OrdersToProto(r)
  {
    hide OrderToProto;
    if q == [] {
      assert q + r == r;
    } else {
      assert (q + r)[1..] == q[1..] + r;
      ProtoConcat(q[1..], r);
    }
  }

  lemma {:induction false} EntriesFlatten(L: Ladder)
    ensures OrdersOf(EntriesToProto(L)) == OrdersToProto(Flat(L))
  {
    if L != [] {
      EntriesFlatten(L[1..]);
      ProtoConcat(L[0].queue, Flat(L[1..]));
      assert EntriesToProto(L)[1..] == EntriesToProto(L[1..]);
    }
  }

  ghost predicate AllMachine(b: Book) {
    && (forall i | 0 <= i < |Everything(b)| :: Machine(Everything(b)[i]))
    && (forall i | 0 <= i < |b.parked| :: Machine(b.parked[i]))
  }

  ghost predicate AllPrintable(b: Book) {
    && (forall i | 0 <= i < |Everything(b)| :: Printable(Everything(b)[i]))
    && (forall i | 0 <= i < |b.parked| :: Printable(b.parked[i]))
  }

  lemma BookOrders(b: Book)
    ensures OrdersOf(BookToProto(b).buy) + OrdersOf(BookToProto(b).sell) == OrdersToProto(Everything(b))
  {
    EntriesFlatten(b.bids);
    EntriesFlatten(b.asks);
    ProtoConcat(Flat(b.bids), Flat(b.asks));
  }

  // Writing a book and reading it back gives the same ladders, queues, stop orders and counter,
  // exactly when no number in it is the smallest 64-bit value; otherwise reading panics.
  lemma BookRoundTrip(b: Book)
    requires Wf(b) && AllMachine(b)
    ensures BookFromProto(BookToProto(b)) == if AllPrintable(b) then Some(Restored(b)) else None
  {
    hide AddAll, ParkAll, RestAll, Machine, Printable, Everything, OrdersToProto, EntriesToProto, OrdersOf;
    var e := Empty(b.symbol).(seqNo := b.seqNo);
    var full := e.(bids := b.bids, asks := b.asks);
    BookOrders(b);
    AddAllReads(e, Everything(b));
    if forall i | 0 <= i < |Everything(b)| :: Printable(Everything(b)[i]) {
      RestEverything(b, e);
      ParkAllReads(full, b.parked);
      assert [] + b.parked == b.parked;
      assert full.(parked := b.parked) == Restored(b);
    }
  }

  // ---- which snapshots load into a valid book ----

  // Of the orders that belong on the book, none rests yet, no two share an id, and each has a volume.
  ghost predicate Ready(b: Book, ps: seq<ProtoOrder>) {
    && (forall i | 0 <= i < |ps| && Rests(ps[i]) :: !Resting(b, ps[i].id) && OrderFromProto(ps[i]).value.volume > 0)
    && (forall i, j | 0 <= i < j < |ps| && Rests(ps[i]) && Rests(ps[j]) :: ps[i].id != ps[j].id)
  }

  ghost predicate Rests(p: ProtoOrder) {
    OrderFromProto(p).Some? && OnBook(p.side)
  }

  // No id twice, no volume that is not positive; the numbers may still be corrupt.
  ghost predicate Loadable(p: ProtoBook) {
    Ready(Empty(p.symbol), OrdersOf(p.buy) + OrdersOf(p.sell))
  }

  lemma Reads(p: ProtoOrder)
    requires OrderFromProto(p).Some?
    ensures var o := OrderFromProto(p).value; o.id == p.id && o.side == p.side
  {
  }

  // What follows the first order must be ready for the book with that order.
  lemma ReadyStep(b: Book, ps: seq<ProtoOrder>)
    requires Wf(b) && ps != [] && OrderFromProto(ps[0]).Some?
    ensures var o := OrderFromProto(ps[0]).value;
      Ready(b, ps) <==> Wf(Rest(b, o)) && Ready(Rest(b, o), ps[1..])
  {
    hide OrderFromProto, Rest, Wf, Resting;
    var o := OrderFromProto(ps[0]).value;
    Reads(ps[0]);
    RestExact(b, o);
    if Wf(Rest(b, o)) {
      forall id ensures Resting(Rest(b, o), id) <==> Resting(b, id) || (OnBook(o.side) && id == o.id) {
        NowResting(b, o, id);
      }
    }
    assert forall i | 0 < i < |ps| :: ps[i] == ps[1..][i - 1];
  }

  lemma NowResting(b: Book, o: Order, id: int)
    requires Wf(b) && Wf(Rest(b, o))
    ensures Resting(Rest(b, o), id) <==> Resting(b, id) || (OnBook(o.side) && id == o.id)
  {
    RestCopies(b, o);
    RestingIffCounted(b, id);
    RestingIffCounted(Rest(b, o), id);
  }

  // Adding all of them gives a well-formed book exactly when they are ready.
  lemma {:induction false} AddAllExact(b: Book, ps: seq<ProtoOrder>)
    requires Wf(b) && AddAll(b, ps).Some?
    ensures Wf(AddAll(b, ps).value) <==> Ready(b, ps)
    decreases ps
  {
    hide OrderFromProto, Rest, Wf, Ranked;
    if ps != [] {
      var o := OrderFromProto(ps[0]).value;
      var c := Rest(b, o);
      ReadyStep(b, ps);
      WfRanked(b);
      RestRanked(b, o);
      if Wf(c) { AddAllExact(c, ps[1..]); } else { StaysBroken(c, ps[1..]); }
    }
  }

  lemma WfRanked(b: Book)
    requires Wf(b)
    ensures Ranked(b)
  {
    SidesRanked(b);
  }

  // From an ill-formed book, no further orders give a well-formed one.
  lemma {:induction false} StaysBroken(b: Book, ps: seq<ProtoOrder>)
    requires Ranked(b) && !Wf(b) && AddAll(b, ps).Some?
    ensures !Wf(AddAll(b, ps).value)
    decreases ps
  {
    hide OrderFromProto, Rest, Wf, Ranked;
    if ps != [] {
      var o := OrderFromProto(ps[0]).value;
      RestRanked(b, o);
      if Wf(Rest(b, o)) { RestBroken(b, o); }
      StaysBroken(Rest(b, o), ps[1..]);
    }
  }

  lemma ParkAllKeeps(b: Book, ps: seq<ProtoOrder>)
    requires ParkAll(b, ps).Some?
    ensures Wf(ParkAll(b, ps).value) <==> Wf(b)
    decreases ps
  {
    hide OrderFromProto, Wf;
    if ps != [] {
      var parked := b.parked + [OrderFromProto(ps[0]).value];
      ParkKeeps(b, parked);
      ParkAllKeeps(b.(parked := parked), ps[1..]);
    }
  }

  // A readable snapshot gives a well-formed book exactly when it is loadable.
  lemma LoadsWellFormed(p: ProtoBook)
    requires BookFromProto(p).Some?
    ensures Wf(BookFromProto(p).value) <==> Loadable(p)
  {
    hide Wf, AddAll, ParkAll, OrdersOf;
    var e, ps := Empty(p.symbol).(seqNo := p.seqNo), OrdersOf(p.buy) + OrdersOf(p.sell);
    EmptyWf(p.symbol);
    SameLadders(Empty(p.symbol), e);
    AddAllExact(e, ps);
    ParkAllKeeps(AddAll(e, ps).value, p.conditional);
    assert forall id :: Lookup(e, id) == Lookup(Empty(p.symbol), id);
  }

  // A snapshot written from a well-formed book is one of them.
  lemma WrittenIsLoadable(b: Book)
    requires Wf(b) && AllMachine(b)
    ensures Loadable(BookToProto(b))
  {
    hide OrderFromProto, Machine, Everything, Flat, OrdersOf, OrdersToProto, EntriesToProto, CountOf, SumQ;
    var os, ps := Everything(b), OrdersToProto(Everything(b));
    BookOrders(b);
    EverythingIsFresh(b);
    forall i | 0 <= i < |ps| && Rests(ps[i])
      ensures !Resting(Empty(b.symbol), ps[i].id)
      ensures OrderFromProto(ps[i]).value.volume > 0
    {
      OrderAt(os, i);
      OrderRoundTrip(os[i]);
    }
    forall i, j | 0 <= i < j < |ps| ensures ps[i].id != ps[j].id {
      OrderAt(os, i);
      OrderAt(os, j);
      Distinct(os, i, j);
    }
  }

  lemma Distinct(q: seq<Order>, i: nat, j: nat)
    requires i < j < |q| && SumQ(q, CountOf(q[i].id)) <= 1
    ensures q[i].id != q[j].id
  {
    OnlyPosition(q, i);
    if q[i].id == q[j].id { OnlyPosition(q, j); }
  }

  lemma EverythingIsFresh(b: Book)
    requires Wf(b)
    ensures forall i | 0 <= i < |Everything(b)| :: Everything(b)[i].volume > 0
    ensures forall id :: SumQ(Everything(b), CountOf(id)) <= 1
  {
    FlatPositive(BUY, b.bids, b.bids);
    FlatPositive(SELL, b.asks, b.asks);
    forall id ensures SumQ(Everything(b), CountOf(id)) <= 1 {
      SumConcat(Flat(b.bids), Flat(b.asks), CountOf(id));
      SumFlat(b.bids, CountOf(id));
      SumFlat(b.asks, CountOf(id));
      assert Copies(b, id) <= 1;
    }
  }
}
