// What a submitted order takes, in prices, volumes, ids and users alone: which matches it makes,
// how much they add up to, when it is accepted, and what is left of it.
module Takers {
  import opened Orders
  import opened Ladders
  import opened Matching
  import opened Books
  import opened Invariants
  import opened Crossings
  import opened Execution
  import opened Fills
  import opened TimeInForce
  import opened Runs
  import opened Tapes

  // Volume at a price or better, for a buyer and for a seller, and any volume.
  function AtMost(p: Px): Order -> int { (r: Order) => if r.price <= p then r.volume else 0 }
  function AtLeast(p: Px): Order -> int { (r: Order) => if r.price >= p then r.volume else 0 }
  function Whole(): Order -> int { (r: Order) => r.volume }

  // The side that an order trades against.
  function Facing(b: Book, o: Order): Ladder {
    if o.side == BUY then b.asks else if o.side == SELL then b.bids else []
  }

  // The volume within the limit of an order, wherever on the other side it rests.
  function InReach(b: Book, o: Order): int {
    SumL(Facing(b, o), if o.side == BUY then AtMost(o.price) else AtLeast(o.price))
  }

  // None of the orders it faces is of its own user.
  ghost predicate Stranger(b: Book, o: Order) {
    o.userID == 0 || forall r | r in Flat(Facing(b, o)) :: r.userID != o.userID
  }

  // ---- the volume in reach ----

  // The ladder in numbers: strictly descending bids, strictly ascending asks.
  lemma LadderPrices(b: Book, i: nat, j: nat)
    requires Ranked(b) && i < j
    ensures j < |b.bids| ==> b.bids[i].price > b.bids[j].price
    ensures j < |b.asks| ==> b.asks[i].price < b.asks[j].price
  {
  }

  // A sorted ladder whose orders carry the price of their level and a volume.
  ghost predicate Laid(s: Side, L: Ladder) {
    Sorted(s, L) && forall i | 0 <= i < |L| :: QueueOk(s, L[i].price, L[i].queue) && L[i].queue != []
  }

  lemma SideLaid(s: Side, L: Ladder)
    requires SideOk(s, L)
    ensures Laid(s, L)
  {
    forall i | 0 <= i < |L| ensures QueueOk(s, L[i].price, L[i].queue) && L[i].queue != [] {
      SidePositive(s, L, i);
    }
  }

  lemma {:induction false} QueueWithin(s: Side, p: Px, q: seq<Order>, limit: Px)
    requires QueueOk(s, p, q)
    ensures SumQ(q, Whole()) == SumQ(q, Volumes()) && SumQ(q, Whole()) >= 0
    ensures SumQ(q, AtMost(limit)) == if p <= limit then SumQ(q, Whole()) else 0
    ensures SumQ(q, AtLeast(limit)) == if p >= limit then SumQ(q, Whole()) else 0
    ensures q != [] ==> SumQ(q, Whole()) > 0
  {
    if q != [] { QueueWithin(s, p, q[1..], limit); }
  }

  // Past the first level beyond the limit there is nothing within it.
  lemma {:induction false} NothingWithin(s: Side, L: Ladder, limit: Px)
    requires Laid(s, L)
    ensures (forall i | 0 <= i < |L| :: L[i].price > limit) ==> SumL(L, AtMost(limit)) == 0
    ensures (forall i | 0 <= i < |L| :: L[i].price < limit) ==> SumL(L, AtLeast(limit)) == 0
  {
    if L != [] {
      QueueWithin(s, L[0].price, L[0].queue, limit);
      NothingWithin(s, L[1..], limit);
    }
  }

  // Volume by volume, the levels that are walked are the ones within the limit.
  lemma {:induction false} CrossingIsWithin(L: Ladder, t: Order)
    requires OnBook(t.side) && Laid(if t.side == BUY then SELL else BUY, L)
    ensures SumQ(Flat(Crossing(L, t)), Volumes()) ==
      SumL(L, if t.side == BUY then AtMost(t.price) else AtLeast(t.price))
    ensures SumQ(Flat(Crossing(L, t)), Volumes()) >= 0
    ensures SumQ(Flat(Crossing(L, t)), Volumes()) == 0 <==> Flat(Crossing(L, t)) == []
  {
    var s := if t.side == BUY then SELL else BUY;
    if L != [] {
      QueueWithin(s, L[0].price, L[0].queue, t.price);
      if Crosses(t, L[0].price) {
        CrossingIsWithin(L[1..], t);
        var T := Crossing(L[1..], t);
        FlatFront(L[0], T);
        SumConcat(L[0].queue, Flat(T), Volumes());
      } else {
        NothingWithin(s, L, t.price);
      }
    }
  }

  lemma ReachableIsInReach(b: Book, o: Order)
    requires Wf(b)
    ensures SumQ(Reachable(b, o), Volumes()) == InReach(b, o) && InReach(b, o) >= 0
    ensures InReach(b, o) == 0 <==> Reachable(b, o) == []
  {
    hide Flat, Crossing, SumL, SumQ, SideOk;
    if OnBook(o.side) {
      SideLaid(SELL, b.asks);
      SideLaid(BUY, b.bids);
      CrossingIsWithin(Facing(b, o), o);
    } else {
      NoReach(b, o);
    }
  }

  lemma NoReach(b: Book, o: Order)
    requires !OnBook(o.side)
    ensures Reachable(b, o) == [] && SumQ(Reachable(b, o), Volumes()) == 0 && InReach(b, o) == 0
  {
  }

  // ---- acceptance ----

  // A limit order is accepted exactly when, post-only, nothing is within its limit and,
  // fill-or-kill, enough is. A refused one changes nothing.
  lemma LimitAccepts(b: Book, o: Order)
    requires Wf(b)
    ensures HandleLimit(b, o).result.accepted <==>
      && (o.tif == PostOnly ==> InReach(b, o) == 0)
      && (o.tif == FOK ==> InReach(b, o) > 0 && InReach(b, o) >= o.volume)
    ensures !HandleLimit(b, o).result.accepted ==>
      HandleLimit(b, o).book == b && HandleLimit(b, o).result.matches == []
    ensures OnBook(o.side) ==> (WouldCross(b, o) <==> InReach(b, o) > 0)
  {
    hide MatchTaker, Rest, Crosses;
    ReachableIsInReach(b, o);
    if OnBook(o.side) {
      CrossingFront(b, o);
      SupplyIsCrossing(SideOf(b, Opposite(o.side)), o);
      CandidatesPositive(b, o, false);
      CoversTotal(Reachable(b, o), o.volume);
    } else {
      NoReach(b, o);
    }
  }

  lemma CrossingFront(b: Book, o: Order)
    requires Wf(b) && OnBook(o.side)
    ensures WouldCross(b, o) <==> Reachable(b, o) != []
  {
    var L := SideOf(b, Opposite(o.side));
    if L != [] { SidePositive(Opposite(o.side), L, 0); }
  }

  // ---- the matches ----

  lemma PassIsHonest(b: Book, o: Order, always: bool)
    requires Wf(b)
    ensures var ms := TradesSince(b, MatchTaker(b, o, always).0);
      Receding(o, ms) && forall m | m in ms :: Honest(b, o, !always, m)
  {
    hide MatchLevels, Wf, TradesOf;
    if OnBook(o.side) { BestExecution(b, o, always); } else { TradesAfter(b, b, []); }
  }

  // Whatever its time in force and mode, a submission trades at the prices of the orders it meets
  // and within its limit; only a market order has none. It never meets an order of its user.
  lemma SubmitIsHonest(b: Book, o: Order)
    requires Wf(b)
    ensures var ms := Submit(b, o).result.matches;
      && Receding(o, ms)
      && (forall m | m in ms :: Honest(b, o, o.kind != MARKET, m))
      && (o.userID != 0 ==> forall m | m in ms :: Lookup(b, Counterparty(o, m)).value.userID != o.userID)
  {
    hide MatchTaker, Wf, CanFullyFill, WouldCross, Rest, TradesOf, Lookup;
    PassIsHonest(b, Normalize(o), false);
    PassIsHonest(b, Normalize(o), true);
    if o.userID != 0 { NoSelfMatch(b, o); }
  }

  // Volume is left over only when nothing within the limit is left opposite, or nothing at all
  // for a market order.
  lemma LeftoverIsStuck(b: Book, o: Order, always: bool)
    requires Wf(b) && OnBook(o.side) && MatchTaker(b, o, always).1 > 0
    ensures var L := Facing(MatchTaker(b, o, always).0, o);
      && (always ==> L == [])
      && forall i | 0 <= i < |L| :: if o.side == BUY then L[i].price > o.price else L[i].price < o.price
  {
    hide MatchLevels;
    SidesRanked(b);
    MatchingIsMaximal(b, o, always, o.volume);
    var c := MatchTaker(b, o, always).0;
    var L := SideOf(c, Opposite(o.side));
    assert L == Facing(c, o);
    forall i | 0 <= i < |L| ensures !always && !Crosses(o, L[i].price) {
      QueueAtIndex(Opposite(o.side), L, i);
    }
  }

  // ---- how much, and with whom ----

  lemma FacingStrangers(b: Book, o: Order, always: bool)
    requires Wf(b) && OnBook(o.side) && Stranger(b, o)
    ensures NoSelfTrade(o, Candidates(b, o, always)) && AllPositive(Candidates(b, o, always))
    ensures Candidates(b, o, always) <= Flat(Facing(b, o))
    ensures SumQ(Candidates(b, o, always), Volumes()) ==
      if always then SumL(Facing(b, o), Whole()) else InReach(b, o)
  {
    var L := Facing(b, o);
    CandidatesPositive(b, o, always);
    FlatSplit(L, o, always);
    SupplyIsCrossing(L, o);
    ReachableIsInReach(b, o);
    SumFlat(L, Volumes());
    SideLaid(SELL, b.asks);
    SideLaid(BUY, b.bids);
    LadderVolume(if o.side == BUY then SELL else BUY, L);
  }

  lemma {:induction false} LadderVolume(s: Side, L: Ladder)
    requires Laid(s, L)
    ensures SumL(L, Whole()) == SumL(L, Volumes())
  {
    if L != [] {
      QueueWithin(s, L[0].price, L[0].queue, 0);
      LadderVolume(s, L[1..]);
    }
  }

  // What the orders ahead leave of the i-th order's taker, and what it gets of that.
  function ShareOf(q: seq<Order>, v: Qty, i: nat): Qty
    requires i < |q|
  {
    var left := v - SumQ(q[..i], Whole());
    if q[i].volume < left then q[i].volume else left
  }

  // The matches of a taker that meets no order of its user: one after the other with the orders
  // it faces, best price first and oldest first, each for its volume or what is left.
  ghost predicate InTurn(b: Book, o: Order, ms: seq<Match>) {
    var q := Flat(Facing(b, o));
    && |ms| <= |q|
    && forall i | 0 <= i < |ms| ::
      Counterparty(o, ms[i]) == q[i].id && ms[i].price == q[i].price && ms[i].volume == ShareOf(q, o.volume, i)
  }

  lemma {:induction false} WholeIsVolumes(q: seq<Order>)
    ensures SumQ(q, Whole()) == SumQ(q, Volumes())
  {
    if q != [] { WholeIsVolumes(q[1..]); }
  }

  lemma PassTotals(b: Book, o: Order, always: bool)
    requires Wf(b) && OnBook(o.side) && o.volume > 0 && Stranger(b, o)
    ensures var (b1, r) := MatchTaker(b, o, always); var ms := TradesSince(b, b1);
      var v := if always then SumL(Facing(b, o), Whole()) else InReach(b, o);
      TradeTotal(ms) == (if v < o.volume then v else o.volume) && r == o.volume - TradeTotal(ms) && InTurn(b, o, ms)
  {
    hide Greedy, MatchLevels, Supply, Flat, Wf, Stranger, TradesOf, SumQ, SumL, TradeTotal;
    var q := Candidates(b, o, always);
    FacingStrangers(b, o, always);
    MatchingIsGreedy(b, o, always, o.volume);
    GreedyTotals(o, o.volume, q);
    var h := Greedy(o, o.volume, q);
    var ms := TradesSince(b, MatchTaker(b, o, always).0);
    ReportsTotal(o, h.fills, ms);
    var all := Flat(Facing(b, o));
    forall i | 0 <= i < |ms| ensures i < |q| && Counterparty(o, ms[i]) == all[i].id
      && ms[i].price == all[i].price && ms[i].volume == ShareOf(all, o.volume, i)
    {
      GreedyShares(o, o.volume, q, i);
      assert q[..i] == all[..i];
      WholeIsVolumes(all[..i]);
    }
    if ms != [] { GreedyShares(o, o.volume, q, |ms| - 1); }
  }

  // ---- the whole submission ----

  // A stop order that a submission handles at once: zero is within its trigger.
  predicate AtOnce(o: Order) {
    (o.side == BUY && o.trigger >= 0) || (o.side == SELL && o.trigger <= 0)
  }

  // The volume that a submission takes, and whether it is accepted.
  function Available(b: Book, o: Order): int {
    if o.kind == MARKET then SumL(Facing(b, o), Whole()) else InReach(b, o)
  }

  predicate Accepts(b: Book, o: Order) {
    || o.kind == MARKET
    || ((o.tif == PostOnly ==> InReach(b, o) == 0) && (o.tif == FOK ==> InReach(b, o) >= o.volume))
  }

  function Taken(b: Book, o: Order): Qty {
    if !Accepts(b, o) then 0 else if Available(b, o) < o.volume then Available(b, o) else o.volume
  }

  // What comes to rest: the rest of a limit order that may wait, with the default self-trade mode.
  function Remains(b: Book, o: Order): Option<Order> {
    if Accepts(b, o) && Taken(b, o) < o.volume && o.kind != MARKET && o.tif != IOC && o.tif != FOK
    then Some(o.(volume := o.volume - Taken(b, o),
                 stp := if o.stp == STPNone && o.userID != 0 then CancelTaker else o.stp))
    else None
  }

  lemma LimitOutcome(b: Book, o: Order)
    requires Wf(b) && OnBook(o.side) && o.volume > 0 && Stranger(b, o) && !Resting(b, o.id) && o.kind != MARKET
    requires o.stp == STPNone ==> o.userID == 0
    ensures var r := HandleLimit(b, o);
      && (r.result.accepted <==> Accepts(b, o))
      && TradeTotal(r.result.matches) == Taken(b, o) && InTurn(b, o, r.result.matches)
      && Lookup(r.book, o.id) == Remains(b, o)
  {
    hide Greedy, MatchTaker, WouldCross, CanFullyFill, Stranger, Facing, SumL, TradesOf, Wf, Rest, Lookup;
    LimitAccepts(b, o);
    ReachableIsInReach(b, o);
    if HandleLimit(b, o).result.accepted {
      PassTotals(b, o, false);
      RemainderRests(b, o);
    }
  }

  lemma MarketOutcome(b: Book, o: Order)
    requires Wf(b) && OnBook(o.side) && o.volume > 0 && Stranger(b, o) && !Resting(b, o.id) && o.kind == MARKET
    ensures var r := HandleMarket(b, o);
      && r.result.accepted
      && TradeTotal(r.result.matches) == Taken(b, o) && InTurn(b, o, r.result.matches)
      && Lookup(r.book, o.id) == Remains(b, o)
  {
    hide MatchTaker, Wf, Stranger, Facing, SumL, TradesOf, Lookup, InTurn;
    PassTotals(b, o, true);
    MarketNeverRests(b, o);
  }

  // A submission that meets no order of its user, told in prices and volumes: whether it is
  // accepted, how much it trades and with whom, and what of it comes to rest.
  lemma SubmitOutcome(b: Book, o: Order)
    requires Wf(b) && OnBook(o.side) && o.volume > 0 && Stranger(b, o) && !Resting(b, o.id)
    requires o.kind == LIMIT || o.kind == MARKET || (o.kind == STOP_LIMIT && AtOnce(o))
    ensures var r := Submit(b, o);
      && (r.result.accepted <==> Accepts(b, o))
      && TradeTotal(r.result.matches) == Taken(b, o) && InTurn(b, o, r.result.matches)
      && Lookup(r.book, o.id) == Remains(b, o)
  {
    hide HandleLimit, HandleMarket, Wf, Lookup, SumL, Flat, TradeTotal;
    var n := Normalize(o);
    assert Stranger(b, n);
    assert InTurn(b, n, Submit(b, o).result.matches) ==> InTurn(b, o, Submit(b, o).result.matches);
    if o.kind == MARKET { MarketOutcome(b, n); } else { LimitOutcome(b, n); }
  }
}
