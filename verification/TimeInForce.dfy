// What the time-in-force of an order decides: whether it may take, and whether its remainder
// rests.
module TimeInForce {
  import opened Orders
  import opened Ladders
  import opened Books
  import opened Invariants
  import opened Tapes
  import opened Runs
  import opened Priority

  // The post-only check looks at the best level only, which decides for all of them.
  lemma BestDecides(b: Book, o: Order)
    requires Wf(b) && OnBook(o.side)
    ensures WouldCross(b, o) <==> !Exhausted(b, o, false)
  {
    var s := Opposite(o.side);
    var L := SideOf(b, s);
    if L != [] {
      QueueAtIndex(s, L, 0);
      forall p | QueueAt(L, p) != [] ensures Crosses(o, p) ==> Crosses(o, L[0].price) {
        var i := QueueAtFound(L, p);
        assert i == 0 || Better(s, L[0].price, L[i].price);
      }
    }
  }

  // A post-only order is accepted exactly when no resting order crosses it, never trades, and
  // if accepted rests in full.
  lemma PostOnlyNeverTakes(b: Book, o: Order)
    requires Wf(b) && OnBook(o.side) && o.tif.PostOnly?
    ensures var r := HandleLimit(b, o);
      && (r.result.accepted <==> Exhausted(b, o, false))
      && r.result.matches == []
      && r.book == if r.result.accepted && o.volume > 0 then Rest(b, o) else b
  {
    BestDecides(b, o);
    if !WouldCross(b, o) {
      assert MatchTaker(b, o, false) == (b, o.volume);
      TradesAfter(b, b, []);
    }
  }

  // An accepted limit order rests exactly when matching leaves a remainder and it is neither
  // immediate-or-cancel nor fill-or-kill; then it is the last of its queue, with that remainder.
  lemma RemainderRests(b: Book, o: Order)
    requires Wf(b) && OnBook(o.side) && !Resting(b, o.id) && HandleLimit(b, o).result.accepted
    ensures var r := MatchTaker(b, o, false).1; var c := HandleLimit(b, o).book;
      && (Resting(c, o.id) <==> r > 0 && !o.tif.IOC? && !o.tif.FOK?)
      && (Resting(c, o.id) ==>
            && Lookup(c, o.id) == Some(o.(volume := r))
            && var q := QueueOf(c, o.side, o.price);
               q != [] && q[|q| - 1] == o.(volume := r))
  {
    hide CanFullyFill, WouldCross, MatchTaker, Resting;
    var (b1, r) := MatchTaker(b, o, false);
    MatchTakerKeeps(b, o, false);
    RestingIffCounted(b, o.id);
    RestingIffCounted(b1, o.id);
    if o.tif.IOC? || o.tif.FOK? {
      WithdrawKeeps(b1, o, r);
      RestingIffCounted(Withdraw(b1, o, r), o.id);
    } else if r > 0 {
      RestsLast(b1, o.(volume := r));
    }
  }

  lemma RestsLast(b: Book, o: Order)
    requires Wf(b) && OnBook(o.side) && !Resting(b, o.id) && o.volume > 0
    ensures Lookup(Rest(b, o), o.id) == Some(o)
    ensures QueueOf(Rest(b, o), o.side, o.price) == QueueOf(b, o.side, o.price) + [o]
    ensures Resting(Rest(b, o), o.id)
  {
    var s, L, c := o.side, SideOf(b, o.side), Rest(b, o);
    var q := QueueAt(L, o.price) + [o];
    RestKeeps(b, o);
    QueueAtPut(s, L, o.price, q, o.price);
    var i := QueueAtFound(SideOf(c, s), o.price);
    LookupExact(c, s, i, |q| - 1);
  }

  // A market order never rests.
  lemma MarketNeverRests(b: Book, o: Order)
    requires Wf(b) && !Resting(b, o.id)
    ensures !Resting(HandleMarket(b, o).book, o.id) && NoNewCopies(b, HandleMarket(b, o).book)
  {
    var (b1, r) := MatchTaker(b, o, true);
    MatchTakerKeeps(b, o, true);
    WithdrawKeeps(b1, o, r);
    RestingIffCounted(b, o.id);
    RestingIffCounted(HandleMarket(b, o).book, o.id);
  }
}
