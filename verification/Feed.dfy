// What a subscriber sees: sequence numbers without gaps, and deltas from which the aggregated
// book can be rebuilt.
module Feed {
  import opened Orders
  import opened Ladders
  import opened Books
  import opened Invariants
  import opened Tapes
  import opened Moves
  import opened Plans
  import opened Runs
  import opened Matching

  // ---- sequence numbers ----

  // Everything b' adds to the tape of b is numbered consecutively from b's counter on. Without
  // a sink only trades are numbered; with one the deltas name the book's symbol.
  ghost predicate Numbered(b: Book, b': Book) {
    && b.tape <= b'.tape && b'.sink == b.sink && b'.symbol == b.symbol
    && b'.seqNo == b.seqNo + (|b'.tape| - |b.tape|)
    && (forall i | |b.tape| <= i < |b'.tape| ::
          && SeqOf(b'.tape[i]) == b.seqNo + 1 + (i - |b.tape|)
          && (!b.sink ==> b'.tape[i].Trade?)
          && (b'.tape[i].Delta? ==> b'.tape[i].d.symbol == b.symbol))
  }

  lemma NumberedThen(a: Book, b: Book, c: Book)
    requires Numbered(a, b) && Numbered(b, c)
    ensures Numbered(a, c)
  {
    assert forall i | 0 <= i < |b.tape| :: c.tape[i] == b.tape[i];
  }

  lemma {:induction false} ExecNumbers(b: Book, ms: seq<Move>)
    ensures Numbered(b, Exec(b, ms))
    decreases |ms|
  {
    if ms != [] {
      ExecNumbers(Do(b, ms[0]), ms[1..]);
      NumberedThen(b, Do(b, ms[0]), Exec(b, ms));
    }
  }

  // Over every run the counter is handed out without a gap or a repeat.
  lemma {:induction false} RunNumbers(b: Book, ops: seq<Op>)
    requires Sound(b) && AdmissibleRun(b, ops)
    ensures Numbered(b, Run(b, ops))
    decreases |ops|
  {
    if ops != [] {
      var n := |ops| - 1;
      var b1 := Run(b, ops[..n]);
      RunPrefix(b, ops);
      RunNumbers(b, ops[..n]);
      RunSound(b, ops[..n]);
      var ms := ApplyLeads(b1, b1, ops[n], Subject(ops[n]));
      ExecNumbers(b1, ms);
      NumberedThen(b, b1, Run(b, ops));
    }
  }

  // ---- the aggregated book ----

  datatype View = View(bids: map<Px, Qty>, asks: map<Px, Qty>)

  function DepthOf(L: Ladder): map<Px, Qty> {
    if L == [] then map[] else DepthOf(L[1..])[L[0].price := SumQ(L[0].queue, Volumes())]
  }

  function ViewOf(b: Book): View {
    View(DepthOf(b.bids), DepthOf(b.asks))
  }

  // How a subscriber applies one delta: zero deletes the level.
  function PatchMap(m: map<Px, Qty>, d: BookDelta): map<Px, Qty> {
    if d.qty == 0 then m - {d.price} else m[d.price := d.qty]
  }

  function Patch(v: View, d: BookDelta): View {
    if d.side.BUY? then v.(bids := PatchMap(v.bids, d)) else v.(asks := PatchMap(v.asks, d))
  }

  function Replay(v: View, ds: seq<BookDelta>): View
    decreases |ds|
  {
    if ds == [] then v else Replay(Patch(v, ds[0]), ds[1..])
  }

  // The quantity a subscriber has at a price, zero if none.
  function Shown(v: View, s: Side, p: Px): Qty {
    var m := if s.BUY? then v.bids else v.asks;
    if p in m then m[p] else 0
  }

  // No delta is negative, and each changes what the subscriber has: zero is sent only for a level
  // that is there.
  predicate Faithful(v: View, ds: seq<BookDelta>)
    decreases |ds|
  {
    if ds == [] then true
    else
      var d := ds[0];
      && d.qty >= 0 && OnBook(d.side)
      && d.qty != Shown(v, d.side, d.price)
      && Faithful(Patch(v, d), ds[1..])
  }

  lemma {:induction false} DepthAt(s: Side, L: Ladder, p: Px)
    requires Proper(s, L)
    ensures p in DepthOf(L) <==> QueueAt(L, p) != []
    ensures p in DepthOf(L) ==> DepthOf(L)[p] == SumQ(QueueAt(L, p), Volumes())
  {
    if L != [] { DepthAt(s, L[1..], p); }
  }

  lemma {:induction false} TotalPositive(q: seq<Order>)
    requires AllPositive(q)
    ensures SumQ(q, Volumes()) >= 0 && (SumQ(q, Volumes()) == 0 <==> q == [])
  {
    if q != [] { TotalPositive(q[1..]); }
  }

  // The depth after a Put is the depth patched with the level's new total.
  lemma DepthPut(s: Side, L: Ladder, p: Px, q: seq<Order>, d: BookDelta)
    requires OnBook(s) && Proper(s, L) && AllPositive(q)
    requires d.price == p && d.qty == SumQ(q, Volumes())
    ensures DepthOf(Put(s, L, p, q)) == PatchMap(DepthOf(L), d)
  {
    TotalPositive(q);
    PutProper(s, L, p, q);
    var D, E := DepthOf(Put(s, L, p, q)), PatchMap(DepthOf(L), d);
    forall x ensures x in D <==> x in E
    {
      QueueAtPut(s, L, p, q, x);
      DepthAt(s, L, x);
      DepthAt(s, Put(s, L, p, q), x);
    }
    forall x | x in D ensures D[x] == E[x] {
      QueueAtPut(s, L, p, q, x);
      DepthAt(s, L, x);
      DepthAt(s, Put(s, L, p, q), x);
    }
  }

  // One quote, published: the subscriber's view follows, and a zero is never spurious.
  lemma QuoteFeeds(b: Book, m: Move, id: int)
    requires SidesOk(b) && b.sink && m.Quote? && Legal(b, m, id)
    ensures var d := BookDelta(b.seqNo + 1, b.symbol, m.s, m.p, SumQ(m.q, Volumes()));
      && Do(b, m).tape == b.tape + [Delta(d)]
      && SidesOk(Do(b, m)) && Do(b, m).sink
      && ViewOf(Do(b, m)) == Patch(ViewOf(b), d)
      && Faithful(ViewOf(b), [d])
  {
    hide Put, SumQ, DepthOf, Sorted, QueueAt;
    var d := BookDelta(b.seqNo + 1, b.symbol, m.s, m.p, SumQ(m.q, Volumes()));
    var L := SideOf(b, m.s);
    DepthPut(m.s, L, m.p, m.q, d);
    DepthAt(m.s, L, m.p);
    TotalPositive(m.q);
    SidePut(m.s, L, m.p, m.q);
    assert [d][1..] == [];
    assert Faithful(Patch(ViewOf(b), d), []);
  }

  lemma {:induction false} ReplayConcat(v: View, ds: seq<BookDelta>, es: seq<BookDelta>)
    ensures Replay(v, ds + es) == Replay(Replay(v, ds), es)
    ensures Faithful(v, ds + es) <==> Faithful(v, ds) && Faithful(Replay(v, ds), es)
    decreases |ds|
  {
    if ds == [] {
      assert ds + es == es;
    } else {
      assert (ds + es)[1..] == ds[1..] + es;
      ReplayConcat(Patch(v, ds[0]), ds[1..], es);
    }
  }

  // The deltas b' adds to the tape of b rebuild the view of b' from the view of b.
  ghost predicate Feeds(b: Book, b': Book) {
    && b.tape <= b'.tape
    && var ds := DeltasOf(b'.tape[|b.tape|..]);
    && Replay(ViewOf(b), ds) == ViewOf(b') && Faithful(ViewOf(b), ds)
  }

  lemma FeedsThen(a: Book, b: Book, c: Book)
    requires Feeds(a, b) && Feeds(b, c)
    ensures Feeds(a, c)
  {
    var x, y := b.tape[|a.tape|..], c.tape[|b.tape|..];
    assert c.tape[..|b.tape|] == b.tape;
    assert c.tape[|a.tape|..] == x + y;
    DeltasConcat(x, y);
    ReplayConcat(ViewOf(a), DeltasOf(x), DeltasOf(y));
  }

  lemma DoFeeds(b: Book, m: Move, id: int)
    requires SidesOk(b) && b.sink && Legal(b, m, id)
    ensures Feeds(b, Do(b, m)) && SidesOk(Do(b, m)) && Do(b, m).sink
  {
    var c := Do(b, m);
    if m.Quote? {
      QuoteFeeds(b, m, id);
      var d := BookDelta(b.seqNo + 1, b.symbol, m.s, m.p, SumQ(m.q, Volumes()));
      assert c.tape[|b.tape|..] == [Delta(d)];
      TapeSnoc([], Delta(d));
      assert [] + [Delta(d)] == [Delta(d)] && [] + [d] == [d];
      assert [d][1..] == [];
    } else if m.Print? {
      assert c.tape[|b.tape|..] == [c.tape[|b.tape|]];
      TapeSnoc([], c.tape[|b.tape|]);
      assert [] + [c.tape[|b.tape|]] == [c.tape[|b.tape|]];
    } else {
      assert c.tape[|b.tape|..] == [];
    }
  }

  lemma {:induction false} ExecFeeds(b: Book, ms: seq<Move>, id: int)
    requires SidesOk(b) && b.sink && LegalMoves(b, ms, id)
    ensures Feeds(b, Exec(b, ms)) && SidesOk(Exec(b, ms)) && Exec(b, ms).sink
    decreases |ms|
  {
    if ms == [] {
      assert b.tape[|b.tape|..] == [];
    } else {
      DoFeeds(b, ms[0], id);
      ExecFeeds(Do(b, ms[0]), ms[1..], id);
      FeedsThen(b, Do(b, ms[0]), Exec(b, ms));
    }
  }

  // From the moment a sink is installed in state b, replaying what it receives over the depth
  // of b gives the depth of the book after every run, and a zero is sent only for a level that
  // is there (so exactly when a level disappears).
  lemma {:induction false} RunFeeds(b: Book, ops: seq<Op>)
    requires Sound(b) && b.sink && AdmissibleRun(b, ops)
    ensures Feeds(b, Run(b, ops)) && Run(b, ops).sink
    decreases |ops|
  {
    if ops == [] {
      assert b.tape[|b.tape|..] == [];
    } else {
      var n := |ops| - 1;
      var b1 := Run(b, ops[..n]);
      RunPrefix(b, ops);
      RunFeeds(b, ops[..n]);
      RunSound(b, ops[..n]);
      var ms := ApplyLeads(b1, b1, ops[n], Subject(ops[n]));
      ExecFeeds(b1, ms, Subject(ops[n]));
      FeedsThen(b, b1, Run(b, ops));
    }
  }
}
