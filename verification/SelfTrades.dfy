// What each self-trade mode means for the taker's fills and for its own resting orders.
module SelfTrades {
  import opened Orders
  import opened Ladders
  import opened Matching
  import opened Books
  import opened Invariants
  import opened Crossings
  import opened Execution
  import opened Fills

  lemma OwnFirst(t: Order, v: Qty, q: seq<Order>)
    requires q != [] && SelfTrade(t, q[0]) && !t.stp.Decrement?
    ensures Greedy(t, v, q).fills == if t.stp.CancelResting? then Greedy(t, v, q[1..]).fills else []
  {
    if v > 0 {
      var h := Step(t, v, q[0]);
      assert h.fills == [];
    }
  }

  lemma OtherFirst(t: Order, v: Qty, q: seq<Order>)
    requires q != [] && !SelfTrade(t, q[0])
    ensures var f := MinQty(v, q[0].volume);
      Greedy(t, v, q).fills == if v <= 0 then [] else [Fill(q[0], f)] + Greedy(t, v - f, q[1..]).fills
  {
    if v > 0 {
      StepFills(t, v, q[0]);
      var f := MinQty(v, q[0].volume);
      assert Left(q[0], f) != [] ==> v - f <= 0 || f == v;
      assert [Fill(q[0], f)] + [] == [Fill(q[0], f)];
    }
  }

  // Except in the decrement mode, a pass trades exactly as if it met only the usable orders,
  // among which none is the taker's own.
  lemma {:induction false} FillsAreUsable(t: Order, v: Qty, q: seq<Order>)
    requires AllPositive(q) && !t.stp.Decrement?
    ensures Greedy(t, v, q).fills == Greedy(t, v, Usable(t, q)).fills
    ensures NoSelfTrade(t, Usable(t, q)) && AllPositive(Usable(t, q))
    decreases |q|
  {
    hide SelfTrade, Greedy;
    if q == [] {
    } else if SelfTrade(t, q[0]) {
      FillsAreUsable(t, v, q[1..]);
      OwnFirst(t, v, q);
      NothingToTrade(t, v);
    } else {
      var u := Usable(t, q[1..]);
      FillsAreUsable(t, v - MinQty(v, q[0].volume), q[1..]);
      OtherFirst(t, v, q);
      OtherFirst(t, v, [q[0]] + u);
      assert ([q[0]] + u)[1..] == u;
    }
  }

  lemma NothingToTrade(t: Order, v: Qty)
    ensures Greedy(t, v, []) == Hit(v, [], [], [])
  {
  }

  // Where a pass leads that has its own order r first in the queue.
  ghost predicate PastOwn(t: Order, left: Qty, r: Order, c: seq<Order>, h: Hit) {
    match t.stp
    case CancelResting => (h.rest, h.remain) == (Greedy(t, left, c).rest, Greedy(t, left, c).remain)
    case CancelBoth => (h.rest, h.remain) == (c, 0)
    case Decrement =>
      if left < r.volume then (h.rest, h.remain) == ([r.(volume := r.volume - left)] + c, 0)
      else (h.rest, h.remain) == (Greedy(t, left - r.volume, c).rest, Greedy(t, left - r.volume, c).remain)
    case _ => (h.rest, h.remain) == ([r] + c, 0)
  }

  lemma OwnAtHead(t: Order, left: Qty, r: Order, c: seq<Order>)
    requires SelfTrade(t, r) && left > 0
    ensures PastOwn(t, left, r, c, Greedy(t, left, [r] + c))
  {
    assert ([r] + c)[1..] == c;
  }

  // The taker has used up the orders `a` and meets its own order r: what is left of the queue
  // and of the taker, mode by mode. An unknown mode acts like cancel-taker.
  lemma MeetsOwn(t: Order, v: Qty, a: seq<Order>, r: Order, c: seq<Order>)
    requires AllPositive(a) && NoSelfTrade(t, a) && SelfTrade(t, r) && r.volume > 0
    requires SumQ(a, Volumes()) < v
    ensures PastOwn(t, v - SumQ(a, Volumes()), r, c, Greedy(t, v, a + ([r] + c)))
  {
    hide Greedy, SelfTrade, SumQ;
    GreedyTotals(t, v, a);
    GreedyConcat(t, v, a, [r] + c);
    OwnAtHead(t, v - SumQ(a, Volumes()), r, c);
  }

  lemma {:induction false} FlatHas(L: Ladder, i: nat, k: nat)
    requires i < |L| && k < |L[i].queue|
    ensures L[i].queue[k] in Flat(L)
  {
    if i == 0 {
      assert (L[0].queue + Flat(L[1..]))[k] == L[0].queue[k];
    } else {
      FlatHas(L[1..], i - 1, k);
    }
  }

  // Modes that stop the taker at its own order.
  predicate Halts(m: STPMode) {
    m.CancelTaker? || m.OtherSTP?
  }

  lemma {:induction false} OwnStayInQueue(t: Order, v: Qty, q: seq<Order>, r: Order)
    requires AllPositive(q) && r in q && SelfTrade(t, r) && Halts(t.stp)
    ensures r in Greedy(t, v, q).rest
    decreases |q|
  {
    if v > 0 {
      var h := Step(t, v, q[0]);
      if h.rest == [] {
        OwnStayInQueue(t, h.remain, q[1..], r);
      } else {
        assert SelfTrade(t, q[0]) ==> h.rest + q[1..] == q;
        assert !SelfTrade(t, q[0]) ==> r in q[1..];
      }
    }
  }

  // In those modes the taker's own resting orders come through matching untouched.
  lemma OwnOrdersStay(b: Book, t: Order, always: bool, id: int)
    requires Wf(b) && OnBook(t.side) && Resting(b, id)
    requires SelfTrade(t, Lookup(b, id).value) && Halts(t.stp)
    ensures Lookup(MatchTaker(b, t, always).0, id) == Lookup(b, id)
  {
    hide SelfTrade, Halts, Greedy, Flat, Supply, MatchLevels, Wf;
    var r, b1 := Lookup(b, id).value, MatchTaker(b, t, always).0;
    LookupLocates(b, id);
    var s := r.side;
    var i := QueueAtFound(SideOf(b, s), r.price);
    FlatHas(SideOf(b, s), i, IndexOf(SideOf(b, s)[i].queue, id));
    MatchTakerKeeps(b, t, always);
    if s == t.side {
      MatchLeavesOwnSide(b, t, always, t.volume);
    } else {
      OwnStayOpposite(b, t, always, r);
    }
    InFlat(b1, s, r);
  }

  lemma OwnStayOpposite(b: Book, t: Order, always: bool, r: Order)
    requires Wf(b) && OnBook(t.side) && SelfTrade(t, r) && Halts(t.stp)
    requires r in Flat(SideOf(b, Opposite(t.side)))
    ensures r in Flat(SideOf(MatchTaker(b, t, always).0, Opposite(t.side)))
  {
    hide SelfTrade, Halts, Greedy, Flat, Supply, MatchLevels, Wf, Reports, TradesSince;
    var L := SideOf(b, Opposite(t.side));
    var S := Supply(L, t, always);
    assert L == S + L[|S|..];
    FlatConcat(S, L[|S|..]);
    MatchingIsGreedy(b, t, always, t.volume);
    if r in Flat(S) {
      CandidatesPositive(b, t, always);
      OwnStayInQueue(t, t.volume, Flat(S), r);
    }
  }

  lemma InFlat(b: Book, s: Side, r: Order)
    requires Wf(b) && OnBook(s) && r in Flat(SideOf(b, s))
    ensures Lookup(b, r.id) == Some(r)
  {
    var j :| 0 <= j < |Flat(SideOf(b, s))| && Flat(SideOf(b, s))[j] == r;
    var i, k := FlatLocates(SideOf(b, s), j);
    LookupExact(b, s, i, k);
  }

  // An order with a user and no mode gets the safe default: it never touches an order of its
  // user, and normalising again changes nothing.
  lemma DefaultIsSafe(b: Book, order: Order, always: bool, id: int)
    requires Wf(b) && OnBook(order.side) && order.userID != 0 && order.stp.STPNone?
    requires Resting(b, id) && Lookup(b, id).value.userID == order.userID
    ensures Lookup(MatchTaker(b, Normalize(order), always).0, id) == Lookup(b, id)
    ensures Normalize(Normalize(order)) == Normalize(order)
  {
    OwnOrdersStay(b, Normalize(order), always, id);
  }

  // ---- the decrement mode ----

  // The same taker without self-trade prevention.
  function Plain(t: Order): Order {
    t.(stp := STPNone)
  }

  // The fills against other users.
  function OthersFills(t: Order, f: seq<Fill>): seq<Fill> {
    if f == [] then []
    else (if SelfTrade(t, f[0].order) then [] else [f[0]]) + OthersFills(t, f[1..])
  }

  // The fills against the taker's own orders, withdrawn on both sides instead.
  function NetOut(t: Order, f: seq<Fill>): seq<Fill> {
    if f == [] then []
    else (if SelfTrade(t, f[0].order) then [f[0], Fill(t, f[0].qty)] else []) + NetOut(t, f[1..])
  }

  lemma StepIsPlain(t: Order, v: Qty, r: Order)
    requires t.stp.Decrement?
    ensures var h, g := Step(t, v, r), Step(Plain(t), v, r);
      && |g.fills| == 1 && g.fills[0].order == r && g.cuts == []
      && h.rest == g.rest && h.remain == g.remain
      && h.fills == (if SelfTrade(t, r) then [] else g.fills)
      && h.cuts == (if SelfTrade(t, r) then [g.fills[0], Fill(t, g.fills[0].qty)] else [])
  {
  }

  // A decrement pass is the pass without prevention: the same orders go, the same volume is left
  // on both sides, but fills against own orders are withdrawals and not trades.
  lemma {:induction false} DecrementIsPlain(t: Order, v: Qty, q: seq<Order>)
    requires t.stp.Decrement?
    ensures var h, g := Greedy(t, v, q), Greedy(Plain(t), v, q);
      && h.rest == g.rest && h.remain == g.remain
      && h.fills == OthersFills(t, g.fills) && h.cuts == NetOut(t, g.fills)
    decreases |q|
  {
    hide Step, SelfTrade;
    if v > 0 && q != [] {
      var s := Step(Plain(t), v, q[0]);
      StepIsPlain(t, v, q[0]);
      if s.rest == [] {
        var g := Greedy(Plain(t), s.remain, q[1..]);
        DecrementIsPlain(t, s.remain, q[1..]);
        assert (s.fills + g.fills)[1..] == g.fills;
      } else {
        assert s.fills[1..] == [];
      }
    }
  }

  // Without prevention the order at position i of the queue goes exactly when what the taker has
  // left for it covers it; what stays is reduced by that.
  lemma {:induction false} PlainLeaves(t: Order, v: Qty, q: seq<Order>, i: nat)
    requires AllPositive(q) && t.stp.STPNone? && i < |q|
    ensures var left := v - SumQ(q[..i], Volumes()); var rest := Greedy(t, v, q).rest;
      if q[i].volume > left then q[i].(volume := q[i].volume - Positive(left)) in rest
      else i < Used(q, rest) <= |q|
    decreases |q|
  {
    hide Step, SumQ;
    BeforeFirst(q, i);
    if v > 0 {
      var s := Step(t, v, q[0]);
      StepFills(t, v, q[0]);
      PositiveSum(q[..i]);
      if s.rest == [] {
        if i > 0 { PlainLeaves(t, s.remain, q[1..], i - 1); }
      } else if i > 0 {
        PositiveSum(q[1..][..i - 1]);
        assert q[i] == q[1..][i - 1] && q[i].(volume := q[i].volume) == q[i];
      } else {
        assert (s.rest + q[1..])[0] == s.rest[0];
      }
    } else {
      PositiveSum(q[..i]);
      assert q[i].(volume := q[i].volume) == q[i];
    }
  }

  lemma BeforeFirst(q: seq<Order>, i: nat)
    requires i < |q|
    ensures SumQ(q[..i], Volumes()) == if i == 0 then 0 else q[0].volume + SumQ(q[1..][..i - 1], Volumes())
  {
    if i > 0 { assert q[..i][1..] == q[1..][..i - 1]; }
  }

  // In the book: of the orders a decrement taker may take from, own or not, each goes on resting
  // exactly when it exceeds what the taker has left for it, reduced by that.
  lemma DecrementLeaves(b: Book, t: Order, always: bool, i: nat)
    requires Wf(b) && OnBook(t.side) && t.stp.Decrement? && i < |Candidates(b, t, always)|
    ensures var q, b1 := Candidates(b, t, always), MatchTaker(b, t, always).0;
      var left := t.volume - SumQ(q[..i], Volumes());
      && (Resting(b1, q[i].id) <==> q[i].volume > left)
      && (q[i].volume > left ==> Lookup(b1, q[i].id) == Some(q[i].(volume := q[i].volume - Positive(left))))
  {
    hide Greedy, SumQ, Flat, Supply, MatchLevels, Wf, Reports, TradesSince;
    var q := Candidates(b, t, always);
    var left := t.volume - SumQ(q[..i], Volumes());
    var s, b1 := Opposite(t.side), MatchTaker(b, t, always).0;
    CandidatesPositive(b, t, always);
    DecrementIsPlain(t, t.volume, q);
    PlainLeaves(Plain(t), t.volume, q, i);
    MatchingIsGreedy(b, t, always, t.volume);
    MatchTakerKeeps(b, t, always);
    if q[i].volume > left {
      InFlat(b1, s, q[i].(volume := q[i].volume - Positive(left)));
    } else {
      GoneAhead(b, t, always, i);
    }
  }

  // The input that shows it: five against one's own eight in the decrement mode leaves three.
  const MY_SELL := Order(1, "S", 7, SELL, LIMIT, GTC, Decrement, 10, 0, 8)
  const MY_BUY := Order(2, "S", 7, BUY, LIMIT, GTC, Decrement, 10, 0, 5)

  lemma DecrementKeepsResting()
    ensures var b := Rest(Empty("S"), MY_SELL);
      Wf(b) && Lookup(MatchTaker(b, MY_BUY, false).0, 1) == Some(MY_SELL.(volume := 3))
  {
    hide MatchTaker, Wf, Greedy;
    var e := Empty("S");
    var b := Rest(e, MY_SELL);
    EmptyWf("S");
    RestKeeps(e, MY_SELL);
    assert QueueAt([], 10) + [MY_SELL] == [MY_SELL];
    assert b.asks == [Level(10, [MY_SELL])] && b.asks[1..] == [] && b.asks + [] == b.asks;
    assert Supply([], MY_BUY, false) == [] && Supply(b.asks, MY_BUY, false) == b.asks;
    FlatFront(Level(10, [MY_SELL]), []);
    assert [MY_SELL] + [] == [MY_SELL];
    assert Candidates(b, MY_BUY, false)[..0] == [];
    DecrementLeaves(b, MY_BUY, false, 0);
  }
}
