// Writing the heap book to a snapshot and rebuilding it.
module Restore {
  import opened Orders
  import opened Ladders
  import opened Levels
  import opened Sides
  import opened Orderbooks
  import opened Invariants
  import opened Fixed
  import opened Snapshot
  import Books

  method ToProto(ob: Orderbook) returns (p: ProtoBook)
    requires ob.Valid()
    ensures p == BookToProto(ob.M)
  {
    hide BookSide.HoldsAs, Wf, OrderToProto, OrdersToProto, EntriesToProto;
    var buy := SideToProto(ob.Buy, ob.M.bids);
    var sell := SideToProto(ob.Sell, ob.M.asks);
    var conditional := [];
    var i := 0;
    while i < |ob.ConditionalOrders|
      invariant i <= |ob.ConditionalOrders|
      invariant conditional == OrdersToProto(ob.ConditionalOrders)[..i]
    {
      ProtoSnoc(ob.ConditionalOrders, i);
      conditional := conditional + [OrderToProto(ob.ConditionalOrders[i])];
      i := i + 1;
    }
    Whole(OrdersToProto(ob.ConditionalOrders));
    p := ProtoBook(ob.Symbol, buy, sell, conditional, ob.seqNo);
  }

  lemma Whole<T>(s: seq<T>)
    ensures s[..|s|] == s
  {
  }

  method SideToProto(half: BookSide, ghost L: Ladder) returns (es: seq<ProtoEntry>)
    requires half.Holds(L)
    ensures es == EntriesToProto(L)
  {
    hide BookSide.HoldsAs, OrdersToProto, EntriesToProto, FormatFixed;
    half.Tops(L);
    es := [];
    var i := 0;
    while i < |half.levels|
      invariant i <= |half.levels| == |L|
      invariant es == EntriesToProto(L)[..i]
    {
      var level := half.levels[i];
      half.Shape(L, i);
      var orders := QueueToProto(level, L[i].queue);
      EntrySnoc(L, i);
      es := es + [ProtoEntry(FormatFixed(level.Price), orders)];
      i := i + 1;
    }
    Whole(EntriesToProto(L));
  }

  method QueueToProto(level: MatchEngineEntry, ghost q: seq<Order>) returns (ps: seq<ProtoOrder>)
    requires level.Valid() && level.Orders.Queue == q
    ensures ps == OrdersToProto(q)
  {
    hide OrderToProto, OrdersToProto;
    ps := [];
    var n := level.Orders.head;
    ghost var k := 0;
    while n != null
      invariant k <= |q| && (n == null <==> k == |q|)
      invariant n != null ==> n == level.Orders.Nodes[k]
      invariant ps == OrdersToProto(q)[..k]
      decreases |q| - k
    {
      ProtoSnoc(q, k);
      ps := ps + [OrderToProto(n.order)];
      n, k := n.Next, k + 1;
    }
    Whole(OrdersToProto(q));
  }

  // Null stands for the panic on a corrupt number. Any other snapshot loads into the book that
  // re-adding its orders gives, valid exactly when no order that rests is repeated or empty.
  method FromProto(p: ProtoBook) returns (ob: Orderbook?)
    ensures match BookFromProto(p)
      case None => ob == null
      case Some(b) => ob != null && fresh(ob.Repr()) && ob.Shelved() && ob.M == b && (ob.Valid() <==> Loadable(p))
  {
    hide Wf, Orderbook.Models, Orderbook.Shelved, Loadable, AddAll, ParkAll, OrdersOf;
    var book := new Orderbook(p.symbol);
    book.SetSeq(p.seqNo);
    book.ModelsShelved();
    NoTail(OrdersOf(p.sell));
    var ok := Reload(book, p.buy, OrdersOf(p.sell));
    if !ok {
      return null;
    }
    ok := Reload(book, p.sell, []);
    if !ok {
      return null;
    }
    NothingToAdd(book.M);
    ok := Requeue(book, p.conditional);
    if !ok {
      return null;
    }
    LoadsWellFormed(p);
    ob := book;
  }

  // The ladders are right, and so is the index if no id rests twice and no volume is missing.
  ghost predicate Good(ob: Orderbook)
    reads ob, ob.Buy, ob.Sell, ob.Buy.Owned, ob.Sell.Owned
  {
    ob.Shelved() && (ob.Valid() <==> Wf(ob.M)) && Ranked(ob.M)
  }

  lemma NoTail(ps: seq<ProtoOrder>)
    ensures ps + [] == ps
  {
  }

  lemma NothingToAdd(b: Books.Book)
    ensures AddAll(b, []) == Some(b)
  {
  }

  lemma NothingToPark(b: Books.Book)
    ensures ParkAll(b, []) == Some(b)
  {
  }

  lemma ParkRanked(b: Books.Book, parked: seq<Order>)
    requires Ranked(b)
    ensures Ranked(b.(parked := parked))
  {
  }

  // Puts the stop orders back.
  method Requeue(ob: Orderbook, ps: seq<ProtoOrder>) returns (ok: bool)
    requires Good(ob)
    modifies ob.Repr()
    ensures fresh(ob.Repr() - old(ob.Repr()))
    ensures ok ==> Good(ob) && ParkAll(old(ob.M), ps) == Some(ob.M)
    ensures !ok ==> ParkAll(old(ob.M), ps) == None
  {
    hide Wf, Ranked, Orderbook.Models, Orderbook.Shelved, OrderFromProto;
    var i := 0;
    while i < |ps|
      invariant i <= |ps|
      invariant Good(ob) && fresh(ob.Repr() - old(ob.Repr()))
      invariant ParkAll(ob.M, ps[i..]) == ParkAll(old(ob.M), ps)
    {
      assert ps[i..][0] == ps[i] && ps[i..][1..] == ps[i + 1..];
      var o := OrderFromProto(ps[i]);
      if o.None? {
        return false;
      }
      ParkKeeps(ob.M, ob.M.parked + [o.value]);
      ParkRanked(ob.M, ob.M.parked + [o.value]);
      ob.AddConditionalOrder(o.value);
      i := i + 1;
    }
    NothingToPark(ob.M);
    ok := true;
  }

  // Re-adds the orders of one side; those of `tail` come after them.
  method Reload(ob: Orderbook, es: seq<ProtoEntry>, ghost tail: seq<ProtoOrder>) returns (ok: bool)
    requires Good(ob)
    modifies ob.Repr()
    ensures fresh(ob.Repr() - old(ob.Repr()))
    ensures ok ==> Good(ob) && AddAll(ob.M, tail) == AddAll(old(ob.M), OrdersOf(es) + tail)
    ensures !ok ==> AddAll(old(ob.M), OrdersOf(es) + tail) == None
  {
    hide Good, AddAll, OrdersOf;
    var i := 0;
    while i < |es|
      invariant i <= |es|
      invariant Good(ob) && fresh(ob.Repr() - old(ob.Repr()))
      invariant AddAll(ob.M, OrdersOf(es[i..]) + tail) == AddAll(old(ob.M), OrdersOf(es) + tail)
    {
      NextEntry(es, i, tail);
      ok := ReloadQueue(ob, es[i].orders, OrdersOf(es[i + 1..]) + tail);
      if !ok {
        return;
      }
      i := i + 1;
    }
    NoEntries(es, tail);
    ok := true;
  }

  lemma NextEntry(es: seq<ProtoEntry>, i: nat, tail: seq<ProtoOrder>)
    requires i < |es|
    ensures OrdersOf(es[i..]) + tail == es[i].orders + (OrdersOf(es[i + 1..]) + tail)
  {
    assert es[i..][0] == es[i] && es[i..][1..] == es[i + 1..];
  }

  lemma NoEntries(es: seq<ProtoEntry>, tail: seq<ProtoOrder>)
    ensures OrdersOf(es[|es|..]) + tail == tail
  {
  }

  method ReloadQueue(ob: Orderbook, ps: seq<ProtoOrder>, ghost tail: seq<ProtoOrder>) returns (ok: bool)
    requires Good(ob)
    modifies ob.Repr()
    ensures fresh(ob.Repr() - old(ob.Repr()))
    ensures ok ==> Good(ob) && AddAll(ob.M, tail) == AddAll(old(ob.M), ps + tail)
    ensures !ok ==> AddAll(old(ob.M), ps + tail) == None
  {
    hide Good, AddAll, OrderFromProto, Books.Rest;
    var k := 0;
    while k < |ps|
      invariant k <= |ps|
      invariant Good(ob) && fresh(ob.Repr() - old(ob.Repr()))
      invariant AddAll(ob.M, ps[k..] + tail) == AddAll(old(ob.M), ps + tail)
    {
      ghost var rest := ps[k..] + tail;
      assert rest[0] == ps[k] && rest[1..] == ps[k + 1..] + tail;
      var o := OrderFromProto(ps[k]);
      if o.None? {
        Corrupt(ob.M, rest);
        return false;
      }
      NextOrder(ob.M, rest);
      ReAdd(ob, o.value);
      k := k + 1;
    }
    assert ps[|ps|..] + tail == tail;
    ok := true;
  }

  lemma Corrupt(b: Books.Book, ps: seq<ProtoOrder>)
    requires ps != [] && OrderFromProto(ps[0]).None?
    ensures AddAll(b, ps) == None
  {
  }

  lemma NextOrder(b: Books.Book, ps: seq<ProtoOrder>)
    requires ps != [] && OrderFromProto(ps[0]).Some?
    ensures AddAll(b, ps) == AddAll(Books.Rest(b, OrderFromProto(ps[0]).value), ps[1..])
  {
  }

  method ReAdd(ob: Orderbook, o: Order)
    requires Good(ob)
    modifies ob.Repr()
    ensures Good(ob) && fresh(ob.Repr() - old(ob.Repr())) && ob.M == Books.Rest(old(ob.M), o)
  {
    hide Wf, Ranked, Orderbook.Models, Orderbook.Shelved, Books.Rest, Resting;
    RestRanked(ob.M, o);
    if Wf(ob.M) {
      RestExact(ob.M, o);
    } else if Wf(Books.Rest(ob.M, o)) {
      RestBroken(ob.M, o);
    }
    var _ := ob.Add(o);
  }

  // Written and read back, a valid heap book is the one it was, or the reader panics because a
  // number in it does not print.
  method WriteAndRead(ob: Orderbook) returns (back: Orderbook?)
    requires ob.Valid() && AllMachine(ob.M)
    ensures back == null <==> !AllPrintable(ob.M)
    ensures back != null ==> fresh(back.Repr()) && back.Valid() && back.M == Restored(ob.M)
  {
    hide Wf, Orderbook.Models, Orderbook.Shelved, Loadable, AllMachine, AllPrintable, BookFromProto, BookToProto;
    WrittenIsLoadable(ob.M);
    BookRoundTrip(ob.M);
    var p := ToProto(ob);
    back := FromProto(p);
  }
}
