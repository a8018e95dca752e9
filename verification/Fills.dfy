// What the reports of one operation guarantee: best execution, no self-trade, price-time
// priority, and fill-or-kill.
module Fills {
  import opened Orders
  import opened Ladders
  import opened Matching
  import opened Books
  import opened Invariants
  import opened Tapes
  import opened Crossings
  import opened Execution

  function Counterparty(t: Order, m: Match): int {
    if t.side.BUY? then m.sellId else m.buyId
  }

  // The orders the taker may take from, in priority order.
  function Candidates(b: Book, t: Order, always: bool): seq<Order>
    requires OnBook(t.side)
  {
    Flat(Supply(SideOf(b, Opposite(t.side)), t, always))
  }

  // ---- the flattened side ----

  lemma {:induction false} FlatLocates(L: Ladder, j: nat) returns (i: nat, k: nat)
    requires j < |Flat(L)|
    ensures i < |L| && k < |L[i].queue| && L[i].queue[k] == Flat(L)[j]
  {
    if j < |L[0].queue| {
      i, k := 0, j;
    } else {
      i, k := FlatLocates(L[1..], j - |L[0].queue|);
      i := i + 1;
    }
  }

  lemma {:induction false} SupplyCrosses(L: Ladder, t: Order, i: nat)
    requires i < |Supply(L, t, false)|
    ensures Crosses(t, L[i].price)
  {
    if i > 0 { SupplyCrosses(L[1..], t, i - 1); }
  }

  // Every candidate rests in the book under its id, on the other side, and within the limit.
  lemma CandidateRests(b: Book, t: Order, always: bool, j: nat)
    requires Wf(b) && OnBook(t.side) && j < |Candidates(b, t, always)|
    ensures var r := Candidates(b, t, always)[j];
      && Lookup(b, r.id) == Some(r) && r.side == Opposite(t.side) && r.volume > 0
      && (!always ==> Crosses(t, r.price))
  {
    var s := Opposite(t.side);
    var L := SideOf(b, s);
    var S := Supply(L, t, always);
    var i, k := FlatLocates(S, j);
    assert S[i] == L[i];
    SidePositive(s, L, i);
    LookupExact(b, s, i, k);
    if !always { SupplyCrosses(L, t, i); }
  }

  lemma CandidatesPositive(b: Book, t: Order, always: bool)
    requires Wf(b) && OnBook(t.side)
    ensures AllPositive(Candidates(b, t, always))
  {
    var L := SideOf(b, Opposite(t.side));
    FlatPositive(Opposite(t.side), L, Supply(L, t, always));
  }

  // No candidate is better priced than one before it.
  ghost predicate Worsens(s: Side, q: seq<Order>) {
    forall i, j | 0 <= i < j < |q| :: !Better(s, q[j].price, q[i].price)
  }

  lemma CandidatesWorsen(b: Book, t: Order, always: bool)
    requires Wf(b) && OnBook(t.side)
    ensures Worsens(Opposite(t.side), Candidates(b, t, always))
  {
    var s := Opposite(t.side);
    var L := SideOf(b, s);
    var S := Supply(L, t, always);
    FlatWorsens(s, L, |S|);
  }

  lemma {:induction false} FlatWorsens(s: Side, L: Ladder, n: nat)
    requires OnBook(s) && SideOk(s, L) && n <= |L|
    ensures Worsens(s, Flat(L[..n]))
    ensures forall j | 0 <= j < |Flat(L[..n])| :: exists i | 0 <= i < n :: L[i].price == Flat(L[..n])[j].price
  {
    FlatSnoc(L, 0);
    if n > 0 {
      FlatSnoc(L, n - 1);
      FlatWorsens(s, L, n - 1);
      SidePositive(s, L, n - 1);
      var A: seq<Order>, q: seq<Order> := Flat(L[..n - 1]), L[n - 1].queue;
      assert Flat(L[..n]) == A + q;
      forall i, j | 0 <= i < j < |A + q| ensures !Better(s, (A + q)[j].price, (A + q)[i].price) {
        if i < |A| <= j {
          var h :| 0 <= h < n - 1 && L[h].price == A[i].price;
          assert Better(s, L[h].price, L[n - 1].price);
        }
      }
      forall j | 0 <= j < |A + q| ensures exists i | 0 <= i < n :: L[i].price == (A + q)[j].price {
        if j >= |A| { assert L[n - 1].price == (A + q)[j].price; }
      }
    }
  }

  // ---- best execution ----

  lemma FrontFills(t: Order, remain: Qty, q: seq<Order>)
    requires Greedy(t, remain, q).fills != []
    ensures q != [] && |Step(t, remain, q[0]).fills| <= 1
    ensures var h := Step(t, remain, q[0]); var f := Greedy(t, remain, q).fills;
      && (h.fills != [] ==> f[0].order == q[0])
      && (|f| > |h.fills| ==> f == h.fills + Greedy(t, h.remain, q[1..]).fills)
  {
    hide Step;
    StepFillsAtMostOne(t, remain, q[0]);
  }

  lemma StepFillsAtMostOne(t: Order, remain: Qty, r: Order)
    ensures var f := Step(t, remain, r).fills; |f| <= 1 && (f != [] ==> f[0].order == r)
  {
  }

  // The fills of a pass come from the queue in its order.
  lemma {:induction false} GreedyFillsWorsen(t: Order, remain: Qty, q: seq<Order>, s: Side, i: nat, j: nat)
    requires AllPositive(q) && Worsens(s, q) && i < j < |Greedy(t, remain, q).fills|
    ensures var f := Greedy(t, remain, q).fills; !Better(s, f[j].order.price, f[i].order.price)
    decreases |q|
  {
    hide Better, SelfTrade, Step, Greedy;
    FrontFills(t, remain, q);
    var h := Step(t, remain, q[0]);
    var n := |h.fills|;
    if i < n {
      var k := GreedyFillsInOrder(t, h.remain, q[1..], j - n);
      assert q[1..][k] == q[k + 1];
    } else {
      GreedyFillsWorsen(t, h.remain, q[1..], s, i - n, j - n);
    }
  }

  // Match m is between taker t and an order that rests on the other side, at the price of that
  // order, and within the taker's limit if it has one.
  ghost predicate Honest(b: Book, t: Order, limited: bool, m: Match) {
    && (if t.side == BUY then m.buyId == t.id else m.sellId == t.id)
    && Lookup(b, Counterparty(t, m)).Some?
    && var r := Lookup(b, Counterparty(t, m)).value;
    && m.price == r.price && 0 < m.volume <= r.volume
    && (if t.side == BUY then r.side == SELL else t.side == SELL && r.side == BUY)
    && (limited ==> if t.side == BUY then m.price <= t.price else m.price >= t.price)
  }

  ghost predicate FairTrade(b: Book, t: Order, limited: bool, m: Match) {
    Honest(b, t, limited, m) && !SelfTrade(t, Lookup(b, Counterparty(t, m)).value)
  }

  // Prices move away from the taker: up for a buyer, down for a seller.
  ghost predicate Receding(t: Order, ms: seq<Match>) {
    forall i, j | 0 <= i < j < |ms| ::
      if t.side == BUY then ms[i].price <= ms[j].price else ms[i].price >= ms[j].price
  }

  // Every match of a pass is for a positive volume, at the price of a resting order of someone
  // else, within the taker's limit, and prices only worsen.
  lemma BestExecution(b: Book, t: Order, always: bool)
    requires Wf(b) && OnBook(t.side)
    ensures var ms := TradesSince(b, MatchTaker(b, t, always).0);
      Receding(t, ms) && forall i | 0 <= i < |ms| :: FairTrade(b, t, !always, ms[i])
  {
    hide Greedy, TradesSince, Flat, Supply, MatchLevels, Worsens, Better, Wf;
    var q := Candidates(b, t, always);
    var h := Greedy(t, t.volume, q);
    var ms := TradesSince(b, MatchTaker(b, t, always).0);
    CandidatesPositive(b, t, always);
    CandidatesWorsen(b, t, always);
    MatchingIsGreedy(b, t, always, t.volume);
    assert Reports(t, h.fills, ms);
    forall i | 0 <= i < |ms| ensures FairTrade(b, t, !always, ms[i]) {
      var j := GreedyFillsInOrder(t, t.volume, q, i);
      CandidateRests(b, t, always, j);
    }
    forall i, j | 0 <= i < j < |ms|
      ensures if t.side == BUY then ms[i].price <= ms[j].price else ms[i].price >= ms[j].price
    {
      GreedyFillsWorsen(t, t.volume, q, Opposite(t.side), i, j);
      NotBetter(t, ms[i].price, ms[j].price);
    }
  }

  lemma NotBetter(t: Order, p: Px, r: Px)
    requires OnBook(t.side) && !Better(Opposite(t.side), r, p)
    ensures if t.side == BUY then p <= r else p >= r
  {
  }

  // A submitted order with a user never trades with an order of that user, whatever its
  // self-trade mode, also none and also an unknown one.
  lemma NoSelfMatch(b: Book, order: Order)
    requires Wf(b) && order.userID != 0
    ensures forall m | m in Submit(b, order).result.matches ::
      var o := Normalize(order);
      Resting(b, Counterparty(o, m)) && Lookup(b, Counterparty(o, m)).value.userID != order.userID
  {
    hide MatchLevels, Wf, CanFullyFill, WouldCross, Rest, Crosses, Better, Lookup, MakeMatch;
    var o := Normalize(order);
    if OnBook(o.side) {
      BestExecution(b, o, false);
      BestExecution(b, o, true);
    } else {
      TradesAfter(b, b, []);
    }
  }

  // ---- priority within one pass ----

  // A candidate before the first survivor no longer rests afterwards.
  lemma GoneAhead(b: Book, t: Order, always: bool, i: nat)
    requires Wf(b) && OnBook(t.side)
    requires var q := Candidates(b, t, always); i < Used(q, Greedy(t, t.volume, q).rest) <= |q|
    ensures !Resting(MatchTaker(b, t, always).0, Candidates(b, t, always)[i].id)
  {
    hide Supply, Flat, Greedy, SumQ, SumL, CountOf, MatchLevels, Resting, Reports, TradesSince;
    var s := Opposite(t.side);
    var L := SideOf(b, s);
    var S := Supply(L, t, always);
    var q := Candidates(b, t, always);
    var h := Greedy(t, t.volume, q);
    var k := Used(q, h.rest);
    var id := q[i].id;
    var b1 := MatchTaker(b, t, always).0;
    MatchingIsGreedy(b, t, always, t.volume);
    CandidatesPositive(b, t, always);
    GreedyTakesPrefix(t, t.volume, q);
    assert L == S + L[|S|..];
    FlatConcat(S, L[|S|..]);
    SumFlat(L, CountOf(id));
    SumFlat(SideOf(b1, s), CountOf(id));
    SumConcat(q, Flat(L[|S|..]), CountOf(id));
    SumConcat(h.rest, Flat(L[|S|..]), CountOf(id));
    CountSplit(q, h.rest, k, i);
    MatchLeavesOwnSide(b, t, always, t.volume);
    RestingIffCounted(b, id);
    RestingIffCounted(b1, id);
    assert Copies(b, id) <= 1;
  }

  // The survivors carry the ids of q[k..], so an id before k is counted in the part that went.
  lemma CountSplit(q: seq<Order>, rest: seq<Order>, k: nat, i: nat)
    requires i < k <= |q| && |rest| == |q| - k
    requires rest != [] ==> rest[1..] == q[k + 1..] && rest[0].id == q[k].id
    ensures SumQ(rest, CountOf(q[i].id)) <= SumQ(q, CountOf(q[i].id)) - 1
  {
    var id := q[i].id;
    assert q == q[..k] + q[k..];
    SumConcat(q[..k], q[k..], CountOf(id));
    assert rest != [] ==> q[k..][1..] == q[k + 1..];
    CountNonNegative(q[..k], id);
    IndexOfMember(q[..k], i);
  }

  lemma {:induction false} IndexOfMember(q: seq<Order>, i: nat)
    requires i < |q|
    ensures IndexOf(q, q[i].id) < |q|
  {
    if i > 0 {
      assert q[1..][i - 1] == q[i];
      IndexOfMember(q[1..], i - 1);
    }
  }

  lemma {:induction false} MatchLeavesOwnSide(b: Book, t: Order, always: bool, remain: Qty)
    requires OnBook(t.side)
    ensures SideOf(MatchLevels(b, t, always, remain).0, t.side) == SideOf(b, t.side)
    decreases |SideOf(b, Opposite(t.side))|, remain > 0
  {
    var L := SideOf(b, Opposite(t.side));
    if remain > 0 && L != [] && (always || Crosses(t, L[0].price)) {
      LevelStepKeepsSide(b, t, remain);
      MatchLeavesOwnSide(LevelStep(b, t, remain).0, t, always, LevelStep(b, t, remain).1);
    }
  }

  // No order is filled while one with better priority still rests: at its own price the earlier
  // ones, and all of every better price.
  lemma FillsRespectPriority(b: Book, t: Order, always: bool, n: nat) returns (j: nat)
    requires Wf(b) && OnBook(t.side) && n < |TradesSince(b, MatchTaker(b, t, always).0)|
    ensures var q := Candidates(b, t, always); var b1 := MatchTaker(b, t, always).0;
      && j < |q| && q[j].id == Counterparty(t, TradesSince(b, b1)[n])
      && forall i | 0 <= i < j :: !Resting(b1, q[i].id)
  {
    var q := Candidates(b, t, always);
    var h := Greedy(t, t.volume, q);
    MatchingIsGreedy(b, t, always, t.volume);
    CandidatesPositive(b, t, always);
    GreedyTakesPrefix(t, t.volume, q);
    assert Reports(t, h.fills, TradesSince(b, MatchTaker(b, t, always).0));
    j := GreedyFillsInOrder(t, t.volume, q, n);
    forall i | 0 <= i < j ensures !Resting(MatchTaker(b, t, always).0, q[i].id) {
      GoneAhead(b, t, always, i);
    }
  }

  // ---- fill or kill ----

  function TradeTotal(ms: seq<Match>): int {
    if ms == [] then 0 else ms[0].volume + TradeTotal(ms[1..])
  }

  lemma {:induction false} ReportsTotal(t: Order, f: seq<Fill>, ms: seq<Match>)
    requires Reports(t, f, ms)
    ensures TradeTotal(ms) == FillTotal(f)
  {
    if ms != [] { ReportsTotal(t, f[1..], ms[1..]); }
  }

  // The volume a taker can really trade with: its own orders are skipped when its mode cancels
  // the resting order, and stop it otherwise.
  function Usable(t: Order, q: seq<Order>): seq<Order> {
    if q == [] then []
    else if !SelfTrade(t, q[0]) then [q[0]] + Usable(t, q[1..])
    else if t.stp.CancelResting? then Usable(t, q[1..])
    else []
  }

  lemma {:induction false} UsableAll(t: Order, q: seq<Order>)
    requires NoSelfTrade(t, q)
    ensures Usable(t, q) == q
  {
    if q != [] { UsableAll(t, q[1..]); }
  }

  // A pass trades the whole of the taker exactly when the usable volume covers it.
  lemma {:induction false} FullyTraded(t: Order, v: Qty, q: seq<Order>)
    requires AllPositive(q) && v > 0
    ensures FillTotal(Greedy(t, v, q).fills) <= v
    ensures FillTotal(Greedy(t, v, q).fills) == v <==> SumQ(Usable(t, q), Volumes()) >= v
    ensures SumQ(Usable(t, q), Volumes()) >= 0
    decreases |q|
  {
    if q != [] {
      var s := Step(t, v, q[0]);
      var g := Greedy(t, s.remain, q[1..]);
      FillVolConcat(s.fills, g.fills, 0);
      if s.remain > 0 { FullyTraded(t, s.remain, q[1..]); }
      FullyTraded(t, v, q[1..]);
      if SelfTrade(t, q[0]) {
        StepWithdraws(t, v, q[0]);
        assert t.stp.Decrement? ==> s.remain < v;
      } else {
        StepFills(t, v, q[0]);
        assert s.fills[1..] == [];
        assert ([q[0]] + Usable(t, q[1..]))[1..] == Usable(t, q[1..]);
      }
    }
  }

  // Fill or kill. The check accepts exactly when the crossing volume covers the order, and a
  // refused order changes nothing. An accepted one is filled in full exactly when the usable
  // volume covers it: the check also counts the taker's own orders.
  lemma FillOrKill(b: Book, o: Order)
    requires Wf(b) && o.tif.FOK? && o.volume > 0
    ensures var r := HandleLimit(b, o); var q := Reachable(b, o);
      && (r.result.accepted <==> SumQ(q, Volumes()) >= o.volume)
      && (!r.result.accepted ==> r.book == b && r.result.matches == [])
      && (r.result.accepted ==>
            && TradeTotal(r.result.matches) <= o.volume
            && (TradeTotal(r.result.matches) == o.volume <==> SumQ(Usable(o, q), Volumes()) >= o.volume))
  {
    hide Greedy, Usable, TradeTotal, FillTotal, MatchLevels, Supply, Crossing, Flat, Wf, Rest;
    if OnBook(o.side) {
      var q := Candidates(b, o, false);
      SupplyIsCrossing(SideOf(b, Opposite(o.side)), o);
      CandidatesPositive(b, o, false);
      MatchingIsGreedy(b, o, false, o.volume);
      CoversTotal(q, o.volume);
      FullyTraded(o, o.volume, q);
      ReportsTotal(o, Greedy(o, o.volume, q).fills, TradesSince(b, MatchTaker(b, o, false).0));
    }
  }

  // Without an own order in reach the dry run predicts the pass: it says yes exactly when
  // matching leaves no remainder, and exactly when the matches add up to the order.
  lemma DryRunIsExact(b: Book, o: Order)
    requires Wf(b) && OnBook(o.side) && o.volume > 0 && NoSelfTrade(o, Reachable(b, o))
    ensures var (b1, r) := MatchTaker(b, o, false);
      && (CanFullyFill(b, o) <==> SumQ(Reachable(b, o), Volumes()) >= o.volume)
      && (CanFullyFill(b, o) <==> r == 0)
      && (CanFullyFill(b, o) <==> TradeTotal(TradesSince(b, b1)) == o.volume)
      && TradeTotal(TradesSince(b, b1)) + r == o.volume
  {
    var q := Candidates(b, o, false);
    SupplyIsCrossing(SideOf(b, Opposite(o.side)), o);
    CandidatesPositive(b, o, false);
    MatchingIsGreedy(b, o, false, o.volume);
    CoversTotal(q, o.volume);
    GreedyTotals(o, o.volume, q);
    ReportsTotal(o, Greedy(o, o.volume, q).fills, TradesSince(b, MatchTaker(b, o, false).0));
  }

  // What a pass leaves of a taker that cancels its own resting orders: exactly what the others
  // do not cover.
  lemma {:induction false} RemainderPastOwn(t: Order, v: Qty, q: seq<Order>)
    requires AllPositive(q) && v >= 0 && t.stp.CancelResting? && t.userID != 0
    ensures SumQ(Usable(t, q), Volumes()) >= 0
    ensures Greedy(t, v, q).remain == v - MinQty(v, SumQ(Usable(t, q), Volumes()))
    decreases |q|
  {
    if q != [] {
      var s := Step(t, v, q[0]);
      RemainderPastOwn(t, v, q[1..]);
      if s.rest == [] { RemainderPastOwn(t, if v > 0 then s.remain else 0, q[1..]); }
      assert ([q[0]] + Usable(t, q[1..]))[1..] == Usable(t, q[1..]);
    }
  }

  // In every other case enough volume leaves nothing of the taker, traded or not.
  lemma {:induction false} EnoughLeavesNothing(t: Order, v: Qty, q: seq<Order>)
    requires AllPositive(q) && 0 <= v <= SumQ(q, Volumes()) && !(t.stp.CancelResting? && t.userID != 0)
    ensures Greedy(t, v, q).remain == 0
    decreases |q|
  {
    hide Step;
    if v > 0 && q != [] {
      var s := Step(t, v, q[0]);
      StepSpends(t, v, q[0]);
      if s.rest == [] && s.remain > 0 { EnoughLeavesNothing(t, s.remain, q[1..]); }
    }
  }

  // A fill-or-kill order that has passed the check is left without a remainder exactly when it
  // does not cancel its own resting orders, or the others cover it.
  lemma FillOrKillRemainder(b: Book, o: Order)
    requires Wf(b) && o.tif.FOK? && o.volume > 0 && CanFullyFill(b, o)
    ensures MatchTaker(b, o, false).1 == 0 <==>
      !(o.stp.CancelResting? && o.userID != 0) || SumQ(Usable(o, Reachable(b, o)), Volumes()) >= o.volume
  {
    hide Greedy, Usable, MatchLevels, Supply, Crossing, Flat, Wf, Reports;
    var q := Candidates(b, o, false);
    SupplyIsCrossing(SideOf(b, Opposite(o.side)), o);
    CandidatesPositive(b, o, false);
    MatchingIsGreedy(b, o, false, o.volume);
    CoversTotal(q, o.volume);
    if o.stp.CancelResting? && o.userID != 0 {
      RemainderPastOwn(o, o.volume, q);
    } else {
      EnoughLeavesNothing(o, o.volume, q);
    }
  }

  // The inputs that show it: a fill-or-kill buy of user 7 against that user's own sell is
  // accepted and trades nothing; if it cancels the resting order it keeps its whole volume.
  const OWN_SELL := Order(1, "S", 7, SELL, LIMIT, GTC, CancelTaker, 10, 0, 5)
  const OWN_BUY := Order(2, "S", 7, BUY, LIMIT, FOK, CancelTaker, 10, 0, 5)
  const OWN_BOOK := Empty("S").(asks := [Level(10, [OWN_SELL])])

  lemma OwnBook()
    ensures Wf(OWN_BOOK) && Reachable(OWN_BOOK, OWN_BUY) == [OWN_SELL]
    ensures Reachable(OWN_BOOK, OWN_BUY.(stp := CancelResting)) == [OWN_SELL]
  {
    EmptyWf("S");
    RestKeeps(Empty("S"), OWN_SELL);
    assert QueueAt([], 10) + [OWN_SELL] == [OWN_SELL];
    assert Rest(Empty("S"), OWN_SELL) == OWN_BOOK;
    assert Lookup(Empty("S"), 1) == None;
    assert [Level(10, [OWN_SELL])][1..] == [] && [Level(10, [OWN_SELL])] + [] == [Level(10, [OWN_SELL])];
    assert Crossing([Level(10, [OWN_SELL])], OWN_BUY) == [Level(10, [OWN_SELL])];
    assert Crossing([Level(10, [OWN_SELL])], OWN_BUY.(stp := CancelResting)) == [Level(10, [OWN_SELL])];
    FlatFront(Level(10, [OWN_SELL]), []);
    assert [OWN_SELL] + [] == [OWN_SELL];
  }

  // Orders of one's own only: no match, in any mode.
  lemma OnlyOwnNoMatch(b: Book, o: Order, r: Order)
    requires Wf(b) && OnBook(o.side) && Reachable(b, o) == [r] && SelfTrade(o, r)
    ensures HandleLimit(b, o).result.matches == []
  {
    hide MatchLevels, Supply, Crossing, Flat, Wf, TradesSince;
    SupplyIsCrossing(SideOf(b, Opposite(o.side)), o);
    MatchingIsGreedy(b, o, false, o.volume);
    assert [r][1..] == [];
    assert Greedy(o, o.volume, [r]).fills == [];
    assert Reports(o, [], TradesSince(b, MatchTaker(b, o, false).0));
  }

  lemma FillOrKillCountsOwnOrders()
    ensures Wf(OWN_BOOK)
    ensures HandleLimit(OWN_BOOK, OWN_BUY).result.accepted && HandleLimit(OWN_BOOK, OWN_BUY).result.matches == []
  {
    hide HandleLimit, Reachable;
    OwnBook();
    OwnVolume();
    FillOrKill(OWN_BOOK, OWN_BUY);
    OnlyOwnNoMatch(OWN_BOOK, OWN_BUY, OWN_SELL);
  }

  lemma OwnVolume()
    ensures SumQ([OWN_SELL], Volumes()) == 5
    ensures Usable(OWN_BUY.(stp := CancelResting), [OWN_SELL]) == []
  {
    assert [OWN_SELL][1..] == [];
  }

  lemma FillOrKillLeavesRemainder()
    ensures var o := OWN_BUY.(stp := CancelResting);
      && Wf(OWN_BOOK) && HandleLimit(OWN_BOOK, o).result.accepted && HandleLimit(OWN_BOOK, o).result.matches == []
      && MatchTaker(OWN_BOOK, o, false).1 != 0
  {
    var o := OWN_BUY.(stp := CancelResting);
    hide HandleLimit, Reachable, MatchTaker, Usable;
    OwnBook();
    OwnVolume();
    FillOrKill(OWN_BOOK, o);
    OnlyOwnNoMatch(OWN_BOOK, o, OWN_SELL);
    FillOrKillRemainder(OWN_BOOK, o);
  }
}
