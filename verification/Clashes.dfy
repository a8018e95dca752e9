// Exactly when a submission rests an id twice, as a check on the book before it.
module Clashes {
  import opened Orders
  import opened Ladders
  import opened Matching
  import opened Books
  import opened Invariants
  import opened Crossings
  import opened Execution
  import opened Fills
  import opened SelfTrades

  // A remainder of o will rest, and beside an order with its id that the pass cannot reach.
  predicate Clash(b: Book, o: Order) {
    && OnBook(o.side) && !o.tif.IOC? && !o.tif.FOK? && !(o.tif.PostOnly? && WouldCross(b, o))
    && Greedy(o, o.volume, Reachable(b, o)).remain > 0
    && Resting(b, o.id) && Lookup(b, o.id).value !in Reachable(b, o)
  }

  // Market orders and queued stop orders rest nothing.
  predicate SubmitClash(b: Book, order: Order) {
    var o := Normalize(order);
    (o.kind.LIMIT? || (o.kind.STOP_LIMIT? && IsTriggered(o, 0))) && Clash(b, o)
  }

  lemma {:induction false} CountedMember(q: seq<Order>, id: int) returns (i: nat)
    requires SumQ(q, CountOf(id)) > 0
    ensures i < |q| && q[i].id == id
  {
    if q[0].id == id {
      i := 0;
    } else {
      i := CountedMember(q[1..], id);
      i := i + 1;
    }
  }

  lemma MemberCounted(q: seq<Order>, o: Order)
    requires o in q
    ensures SumQ(q, CountOf(o.id)) > 0
  {
    var i :| 0 <= i < |q| && q[i] == o;
    CountNonNegative(q, o.id);
    IndexOfMember(q, i);
  }

  // The pass over the reachable orders gives the remainder. If there is one, all of them are
  // gone and every other order stays.
  lemma RemainderLeaves(b: Book, o: Order, id: int)
    requires Wf(b) && OnBook(o.side)
    ensures var (b1, r) := MatchTaker(b, o, false); var q := Reachable(b, o);
      && r == Greedy(o, o.volume, q).remain
      && (r > 0 ==> Copies(b1, id) == Copies(b, id) - SumQ(q, CountOf(id)))
  {
    hide Greedy, Flat, Supply, Crossing, MatchLevels, SumQ, SumL, CountOf, Wf, Reports, TradesSince;
    var s := Opposite(o.side);
    var L := SideOf(b, s);
    var S := Supply(L, o, false);
    var b1 := MatchTaker(b, o, false).0;
    SupplyIsCrossing(L, o);
    MatchingIsGreedy(b, o, false, o.volume);
    MatchLeavesOwnSide(b, o, false, o.volume);
    assert L == S + L[|S|..];
    FlatConcat(S, L[|S|..]);
    SumConcat(Flat(S), Flat(L[|S|..]), CountOf(id));
    SumFlat(L, CountOf(id));
    SumFlat(SideOf(b1, s), CountOf(id));
    assert [] + Flat(L[|S|..]) == Flat(L[|S|..]);
  }

  lemma ReachableRests(b: Book, o: Order, r: Order)
    requires Wf(b) && OnBook(o.side) && r in Reachable(b, o)
    ensures Lookup(b, r.id) == Some(r)
  {
    var L := SideOf(b, Opposite(o.side));
    SupplyIsCrossing(L, o);
    var S := Supply(L, o, false);
    assert L == S + L[|S|..];
    FlatConcat(S, L[|S|..]);
    InFlat(b, Opposite(o.side), r);
  }

  // After a pass that leaves a remainder an id rests exactly if it rested out of reach.
  lemma RestsOutOfReach(b: Book, o: Order, id: int)
    requires Wf(b) && OnBook(o.side) && MatchTaker(b, o, false).1 > 0
    ensures Resting(MatchTaker(b, o, false).0, id) <==>
      Resting(b, id) && Lookup(b, id).value !in Reachable(b, o)
  {
    hide Reachable, Greedy, MatchTaker, SumQ, CountOf, Lookup;
    var q := Reachable(b, o);
    RemainderLeaves(b, o, id);
    RestingIffCounted(b, id);
    RestingIffCounted(MatchTaker(b, o, false).0, id);
    CountNonNegative(q, id);
    assert Copies(b, id) <= 1;
    if Resting(b, id) && Lookup(b, id).value in q {
      LookupLocates(b, id);
      MemberCounted(q, Lookup(b, id).value);
    } else if SumQ(q, CountOf(id)) > 0 {
      var i := CountedMember(q, id);
      ReachableRests(b, o, q[i]);
    }
  }

  // A limit order keeps the invariant exactly when it does not clash.
  lemma HandleLimitKeeps(b: Book, o: Order)
    requires Wf(b)
    ensures Wf(HandleLimit(b, o).book) <==> !Clash(b, o)
  {
    hide Reachable, Greedy, MatchTaker, Wf, Resting, Lookup, CanFullyFill, WouldCross, Withdraw, Rest;
    var (b1, r) := MatchTaker(b, o, false);
    MatchTakerKeeps(b, o, false);
    WithdrawKeeps(b1, o, r);
    if OnBook(o.side) { RemainderLeaves(b, o, o.id); }
    if r > 0 {
      RestKeeps(b1, o.(volume := r));
      if OnBook(o.side) { RestsOutOfReach(b, o, o.id); }
    }
  }

  // So does every submission. A free id never clashes.
  lemma SubmitKeeps(b: Book, order: Order)
    requires Wf(b)
    ensures Wf(Submit(b, order).book) <==> !SubmitClash(b, order)
    ensures !Resting(b, order.id) ==> !SubmitClash(b, order)
  {
    hide Clash, HandleLimit, MatchTaker, Wf;
    var o := Normalize(order);
    HandleLimitKeeps(b, o);
    ParkKeeps(b, b.parked + [o]);
    var (b1, r) := MatchTaker(b, o, true);
    MatchTakerKeeps(b, o, true);
    WithdrawKeeps(b1, o, r);
    FreeNeverClashes(b, o);
  }

  lemma FreeNeverClashes(b: Book, o: Order)
    ensures !Resting(b, o.id) ==> !Clash(b, o)
  {
  }
}
