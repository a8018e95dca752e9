// A market on the heap: it owns one book, journals every operation before applying it, and is
// rebuilt from the journal on start.
module Markets {
  import opened Orders
  import opened Orderbooks
  import opened Invariants
  import opened Clashes
  import opened Runs
  import opened Promotions
  import opened Recovery
  import opened Snapshot
  import opened Tapes
  import Books
  import Engine
  import Restore

  // Re-runs one journaled operation.
  method ApplyJournalRecord(book: Orderbook, rec: Books.Op)
    requires book.Valid()
    modifies book.Repr()
    ensures book.Shelved() && fresh(book.Repr() - old(book.Repr()))
    ensures book.M == Books.Apply(old(book.M), rec).book
    ensures book.Valid() <==> Admissible(old(book.M), rec)
  {
    hide Wf, Orderbook.Models, Orderbook.Shelved, Orderbook.Valid, SubmitClash, ModifyAllowed;
    match rec {
      case New(o) => var _ := Engine.MatchAndAddNewOrder(book, o);
      case CancelOp(id) =>
        var _ := Engine.CancelOrder(book, id);
        Engine.ValidShelved(book);
      case ModifyOp(id, p, v) => var _ := Engine.ModifyOrder(book, id, p, v);
    }
  }

  class Market {
    const Symbol: string
    var book: Orderbook
    var journal: seq<Books.Op>

    ghost predicate Valid()
      reads this, book, book.Buy, book.Sell, book.Buy.Owned, book.Sell.Owned
    {
      this !in book.Repr() && book.Valid()
    }

    // Start: load the snapshot if there is one, replay the journal over it, then install the
    // sink. A corrupt snapshot panics before there is a market.
    constructor (symbol: string, loaded: Option<ProtoBook>, records: seq<Books.Op>, published: bool)
      requires loaded.Some? ==> Loadable(loaded.value) && BookFromProto(loaded.value).Some?
      requires AdmissibleRun(StartBook(symbol, loaded), records)
      ensures Valid() && fresh(book.Repr()) && Symbol == symbol && journal == records
      ensures book.M == Books.Run(StartBook(symbol, loaded), records).(sink := published)
      ensures match loaded
        case None =>
          && book.M == Books.Run(Books.Empty(symbol), records).(sink := published)
          && book.M == Recover(symbol, records, published)
        case Some(p) => book.M == Books.Run(BookFromProto(p).value, records).(sink := published)
    {
      hide Wf, Orderbook.Models, Books.Run, Loadable, BookFromProto;
      var start: Orderbook?;
      if loaded.Some? {
        start := Restore.FromProto(loaded.value);
      } else {
        start := new Orderbook(symbol);
      }
      Symbol := symbol;
      journal := records;
      book := start;
      new;
      NoSinkYet(symbol, loaded);
      Replay(records);
      if published {
        book.SetL2Sink(true);
      }
    }

    // Applies the records one after another.
    method Replay(records: seq<Books.Op>)
      requires Valid() && AdmissibleRun(book.M, records)
      modifies book.Repr()
      ensures Valid() && book == old(book) && fresh(book.Repr() - old(book.Repr()))
      ensures book.M == Books.Run(old(book.M), records)
    {
      hide Wf, Orderbook.Models, Orderbook.Shelved, Books.Apply, Admissible;
      ghost var was := book.M;
      var i := 0;
      assert records[..0] == [];
      while i < |records|
        invariant i <= |records|
        invariant Valid() && fresh(book.Repr() - old(book.Repr()))
        invariant book.M == Books.Run(was, records[..i])
      {
        assert records[..i + 1][..i] == records[..i];
        ApplyJournalRecord(book, records[i]);
        i := i + 1;
      }
      assert records[..|records|] == records;
    }

    // One operation from the inbox. `appended` is the journal's answer.
    method Handle(op: Books.Op, appended: bool) returns (done: bool)
      requires Valid() && LiveAllowed(book.M, op)
      modifies `journal, book.Repr()
      ensures Valid() && book == old(book) && fresh(book.Repr() - old(book.Repr()))
      ensures done <==> appended && (op.New? ==> Validates(op.order))
      ensures op.New? && appended ==>
        (!done <==> op.order.kind == OtherType("") || op.order.side == OtherSide("")
                    || op.order.price == 0 || op.order.symbol == "")
      ensures !op.New? ==> (done <==> appended)
      ensures !done ==> journal == old(journal) && book.M == old(book.M)
      ensures done ==> journal == old(journal) + [op] && book.M == Live(old(book.M), op)
    {
      hide Wf, Orderbook.Models, Orderbook.Shelved, Books.Submit, Books.Cancel, Books.Modify, Promote, Promotes,
        SubmitClash;
      ghost var was := book.M;
      if op.New? && !Validates(op.order) {
        return false;
      }
      if !appended {
        return false;
      }
      Journal(op);
      match op {
        case New(o) =>
          var res := Engine.MatchAndAddNewOrder(book, o);
          if res.accepted && res.matches != [] {
            var _ := HandleConditionalOrders(res.matches);
          }
        case CancelOp(id) =>
          var _ := Engine.CancelOrder(book, id);
        case ModifyOp(id, p, v) =>
          var _ := Engine.ModifyOrder(book, id, p, v);
      }
      done := true;
    }

    method Journal(op: Books.Op)
      requires Valid()
      modifies `journal
      ensures Valid() && journal == old(journal) + [op]
    {
      journal := journal + [op];
    }

    // Walks the queued stop orders against the matches and submits each triggered one as a limit
    // order, once per match; none leaves the queue.
    method HandleConditionalOrders(matches: seq<Match>) returns (promoted: seq<Match>)
      requires Valid() && Promotes(book.M, book.M.parked, matches)
      modifies book.Repr()
      ensures Valid() && book == old(book) && fresh(book.Repr() - old(book.Repr()))
      ensures book.M == Promote(old(book.M), old(book.M).parked, matches)
      ensures promoted == Books.TradesSince(old(book.M), book.M)
    {
      hide Wf, Orderbook.Models, Orderbook.Shelved, Orderbook.Valid, PromotesOne, PromoteOne, Books.TradesOf,
        Books.HandleLimit;
      ghost var was := book.M;
      var queue := QueuedOrders();
      promoted := [];
      NothingTraded(was);
      var i := 0;
      assert queue[0..] == queue;
      while i < |queue|
        invariant i <= |queue| && Valid() && fresh(book.Repr() - old(book.Repr()))
        invariant Promotes(book.M, queue[i..], matches)
        invariant Promote(book.M, queue[i..], matches) == Promote(was, queue, matches)
        invariant was.tape <= book.M.tape && promoted == Books.TradesSince(was, book.M)
      {
        assert queue[i..][0] == queue[i] && queue[i..][1..] == queue[i + 1..];
        ghost var before := book.M;
        var ms := PromoteOrder(queue[i], matches);
        TradesCompose(was, before, book.M);
        promoted := promoted + ms;
        i := i + 1;
      }
    }

    method QueuedOrders() returns (queue: seq<Order>)
      requires Valid()
      ensures queue == book.M.parked
    {
      queue := book.ConditionalOrders;
    }

    // The inner loop: one queued order against every match.
    method PromoteOrder(order: Order, matches: seq<Match>) returns (promoted: seq<Match>)
      requires Valid() && PromotesOne(book.M, order, matches)
      modifies book.Repr()
      ensures Valid() && book == old(book) && fresh(book.Repr() - old(book.Repr()))
      ensures book.M == PromoteOne(old(book.M), order, matches)
      ensures promoted == Books.TradesSince(old(book.M), book.M)
    {
      hide Wf, Orderbook.Models, Orderbook.Shelved, Orderbook.Valid, Books.TradesOf, Books.HandleLimit, Clash;
      ghost var was := book.M;
      promoted := [];
      NothingTraded(was);
      var j := 0;
      assert matches[0..] == matches;
      while j < |matches|
        invariant j <= |matches| && Valid() && fresh(book.Repr() - old(book.Repr()))
        invariant PromotesOne(book.M, order, matches[j..])
        invariant PromoteOne(book.M, order, matches[j..]) == PromoteOne(was, order, matches)
        invariant was.tape <= book.M.tape && promoted == Books.TradesSince(was, book.M)
      {
        assert matches[j..][0] == matches[j] && matches[j..][1..] == matches[j + 1..];
        ghost var before := book.M;
        if IsTriggered(order, matches[j].price) {
          LimitReports(before, order);
          var r := Engine.HandleLimitOrder(book, order);
          TradesCompose(was, before, book.M);
          promoted := promoted + r.matches;
        }
        j := j + 1;
      }
    }
  }

  // A start from the snapshot of a book and a journal: the book goes on with the ladders, stop
  // orders and counter it was written with, then applies the records.
  method Restart(ob: Orderbook, records: seq<Books.Op>, published: bool) returns (m: Market)
    requires ob.Valid() && AllMachine(ob.M) && AllPrintable(ob.M)
    requires AdmissibleRun(ob.M.(sink := false, tape := [], voids := []), records)
    ensures m.Valid() && fresh(m.book.Repr()) && m.journal == records && m.Symbol == ob.Symbol
    ensures m.book.M == Books.Run(ob.M.(sink := false, tape := [], voids := []), records).(sink := published)
    ensures records == [] ==>
      && m.book.M.bids == ob.M.bids && m.book.M.asks == ob.M.asks
      && m.book.M.parked == ob.M.parked && m.book.M.seqNo == ob.M.seqNo && m.book.M.symbol == ob.M.symbol
      && m.book.M.sink == published
  {
    hide Wf, Orderbook.Models, Orderbook.Shelved, Loadable, AllMachine, AllPrintable, BookFromProto, BookToProto,
      AdmissibleRun;
    WrittenIsLoadable(ob.M);
    BookRoundTrip(ob.M);
    var p := Restore.ToProto(ob);
    m := new Market(ob.Symbol, Some(p), records, published);
  }

  // The same for any readable snapshot, with no record to apply.
  method StartFrom(symbol: string, p: ProtoBook, published: bool) returns (m: Market)
    requires Loadable(p) && BookFromProto(p).Some?
    ensures m.Valid() && fresh(m.book.Repr()) && m.journal == []
    ensures m.book.M == BookFromProto(p).value.(sink := published)
  {
    m := new Market(symbol, Some(p), [], published);
  }

  lemma NothingTraded(b: Books.Book)
    ensures Books.TradesSince(b, b) == []
  {
    TradesAfter(b, b, []);
  }

  // The book a market starts from.
  function StartBook(symbol: string, loaded: Option<ProtoBook>): Books.Book {
    if loaded.Some? && BookFromProto(loaded.value).Some? then BookFromProto(loaded.value).value
    else Books.Empty(symbol)
  }

  // No callback is installed while the journal is replayed.
  lemma NoSinkYet(symbol: string, loaded: Option<ProtoBook>)
    ensures !StartBook(symbol, loaded).sink
  {
    if loaded.Some? {
      var p := loaded.value;
      var e := Books.Empty(p.symbol).(seqNo := p.seqNo);
      AddAllSink(e, OrdersOf(p.buy) + OrdersOf(p.sell));
      var b := AddAll(e, OrdersOf(p.buy) + OrdersOf(p.sell));
      if b.Some? { ParkAllSink(b.value, p.conditional); }
    }
  }

  lemma {:induction false} AddAllSink(b: Books.Book, ps: seq<ProtoOrder>)
    ensures AddAll(b, ps).Some? ==> AddAll(b, ps).value.sink == b.sink
    decreases ps
  {
    hide OrderFromProto;
    if ps != [] && OrderFromProto(ps[0]).Some? {
      AddAllSink(Books.Rest(b, OrderFromProto(ps[0]).value), ps[1..]);
    }
  }

  lemma {:induction false} ParkAllSink(b: Books.Book, ps: seq<ProtoOrder>)
    ensures ParkAll(b, ps).Some? ==> ParkAll(b, ps).value.sink == b.sink
    decreases ps
  {
    hide OrderFromProto;
    if ps != [] && OrderFromProto(ps[0]).Some? {
      ParkAllSink(b.(parked := b.parked + [OrderFromProto(ps[0]).value]), ps[1..]);
    }
  }
}
