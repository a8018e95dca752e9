// The nested loops of matching are one greedy pass over the opposite side, flattened into price
// and then arrival order. Best execution, self-trade prevention and fill-or-kill follow.
module Execution {
  import opened Orders
  import opened Ladders
  import opened Matching
  import opened Books
  import opened Invariants
  import opened Tapes
  import opened Crossings

  // The levels a taker may take from; a market order ignores its price.
  function Supply(L: Ladder, t: Order, always: bool): (S: Ladder)
    ensures |S| <= |L| && S == L[..|S|]
  {
    if always then L
    else if L == [] || !Crosses(t, L[0].price) then []
    else
      var S := Supply(L[1..], t, false);
      assert [L[0]] + L[1..][..|S|] == L[..|S| + 1];
      [L[0]] + S
  }

  lemma {:induction false} SupplyIsCrossing(L: Ladder, t: Order)
    ensures Supply(L, t, false) == Crossing(L, t)
  {
    if L != [] && Crosses(t, L[0].price) { SupplyIsCrossing(L[1..], t); }
  }

  // The matches report these fills, in order, each at the price of its resting order.
  ghost predicate Reports(t: Order, fills: seq<Fill>, ms: seq<Match>) {
    && |fills| == |ms|
    && forall i | 0 <= i < |ms| ::
         ms[i] == MakeMatch(t, fills[i].order.id, fills[i].order.price, fills[i].qty, ms[i].seqNo)
  }

  lemma ReportsConcat(t: Order, f: seq<Fill>, g: seq<Fill>, ms: seq<Match>, ns: seq<Match>)
    requires Reports(t, f, ms) && Reports(t, g, ns)
    ensures Reports(t, f + g, ms + ns)
  {
  }

  lemma {:induction false} RecordReports(b: Book, t: Order, f: seq<Fill>, price: Px)
    requires forall i | 0 <= i < |f| :: f[i].order.price == price
    ensures Reports(t, f, TradesSince(b, Record(b, t, f, price)))
    decreases f
  {
    if f == [] {
      TradesAfter(b, b, []);
    } else {
      var m := MakeMatch(t, f[0].order.id, price, f[0].qty, b.seqNo + 1);
      var b1 := b.(seqNo := b.seqNo + 1, tape := b.tape + [Trade(m)]);
      TradesAfter(b, b1, [Trade(m)]);
      RecordReports(b1, t, f[1..], price);
      TradesCompose(b, b1, Record(b, t, f, price));
      ReportsConcat(t, f[..1], f[1..], [m], TradesSince(b1, Record(b, t, f, price)));
      assert f == f[..1] + f[1..];
    }
  }

  lemma FillsAtPrice(t: Order, remain: Qty, q: seq<Order>, s: Side, p: Px)
    requires QueueOk(s, p, q)
    ensures forall i | 0 <= i < |Greedy(t, remain, q).fills| :: Greedy(t, remain, q).fills[i].order.price == p
  {
    forall i | 0 <= i < |Greedy(t, remain, q).fills|
      ensures Greedy(t, remain, q).fills[i].order.price == p
    {
      var j := GreedyFillsInOrder(t, remain, q, i);
    }
  }

  // One level: its fills are reported at the resting price, and its queue becomes the rest.
  lemma LevelStepIsGreedy(b: Book, t: Order, remain: Qty)
    requires Wf(b) && OnBook(t.side) && SideOf(b, Opposite(t.side)) != []
    ensures var s := Opposite(t.side); var L := SideOf(b, s); var b1 := LevelStep(b, t, remain).0;
      var h := Greedy(t, remain, L[0].queue);
      && Reports(t, h.fills, TradesSince(b, b1))
      && b1.voids == b.voids + h.cuts && LevelStep(b, t, remain).1 == h.remain
      && SideOf(b1, s) == (if h.rest == [] then L[1..] else [Level(L[0].price, h.rest)] + L[1..])
  {
    var s := Opposite(t.side);
    var L := SideOf(b, s);
    var h := Greedy(t, remain, L[0].queue);
    SidePositive(s, L, 0);
    FillsAtPrice(t, remain, L[0].queue, s, L[0].price);
    RecordReports(b, t, h.fills, L[0].price);
    TradesUnchanged(b, Record(b, t, h.fills, L[0].price), LevelStep(b, t, remain).0);
  }

  lemma FlatFront(l: Level, T: Ladder)
    ensures Flat([l] + T) == l.queue + Flat(T)
  {
    assert ([l] + T)[1..] == T;
  }

  // Matching b is one greedy pass over the supply.
  ghost predicate IsGreedy(b: Book, t: Order, always: bool, remain: Qty)
    requires OnBook(t.side)
  {
    var s := Opposite(t.side); var L := SideOf(b, s); var S := Supply(L, t, always);
    var h := Greedy(t, remain, Flat(S)); var (b1, r) := MatchLevels(b, t, always, remain);
    && r == h.remain
    && Flat(SideOf(b1, s)) == h.rest + Flat(L[|S|..])
    && b1.voids == b.voids + h.cuts
    && Reports(t, h.fills, TradesSince(b, b1))
  }

  // Refinement: over the crossing orders in priority order, matching is one greedy pass. What
  // the pass leaves, followed by the levels it could not reach, is the side afterwards.
  lemma {:induction false} MatchingIsGreedy(b: Book, t: Order, always: bool, remain: Qty)
    requires Wf(b) && OnBook(t.side)
    ensures IsGreedy(b, t, always, remain)
    decreases |SideOf(b, Opposite(t.side))|, remain > 0
  {
    var L := SideOf(b, Opposite(t.side));
    hide IsGreedy, Wf, LevelStep, Supply;
    if remain <= 0 || L == [] || !(always || Crosses(t, L[0].price)) {
      NothingToMatch(b, t, always, remain);
    } else {
      var (b1, r1) := LevelStep(b, t, remain);
      LevelStepKeeps(b, t, remain);
      if Greedy(t, remain, L[0].queue).rest == [] {
        MatchingIsGreedy(b1, t, always, r1);
        PassesLevel(b, t, always, remain);
      } else {
        StopsAtLevel(b, t, always, remain);
      }
    }
  }

  lemma SupplyFront(L: Ladder, t: Order, always: bool)
    requires L != [] && (always || Crosses(t, L[0].price))
    ensures var S, T := Supply(L, t, always), Supply(L[1..], t, always);
      S == [L[0]] + T && L[|S|..] == L[1..][|T|..] && Flat(S) == L[0].queue + Flat(T)
  {
    var T := Supply(L[1..], t, always);
    assert L == [L[0]] + L[1..];
    FlatFront(L[0], T);
  }

  lemma NothingToMatch(b: Book, t: Order, always: bool, remain: Qty)
    requires OnBook(t.side)
    requires var L := SideOf(b, Opposite(t.side)); remain <= 0 || L == [] || !(always || Crosses(t, L[0].price))
    ensures IsGreedy(b, t, always, remain)
  {
    var L := SideOf(b, Opposite(t.side));
    var S := Supply(L, t, always);
    assert L == S + L[|S|..];
    FlatConcat(S, L[|S|..]);
    TradesAfter(b, b, []);
    assert b.voids + [] == b.voids;
  }

  lemma MatchGoesOn(b: Book, t: Order, always: bool, remain: Qty)
    requires OnBook(t.side) && remain > 0
    requires var L := SideOf(b, Opposite(t.side)); L != [] && (always || Crosses(t, L[0].price))
    ensures MatchLevels(b, t, always, remain) ==
      MatchLevels(LevelStep(b, t, remain).0, t, always, LevelStep(b, t, remain).1)
  {
  }

  // The best level is used up and matching goes on.
  lemma PassesLevel(b: Book, t: Order, always: bool, remain: Qty)
    requires Wf(b) && OnBook(t.side) && remain > 0
    requires var L := SideOf(b, Opposite(t.side));
      L != [] && (always || Crosses(t, L[0].price)) && Greedy(t, remain, L[0].queue).rest == []
    requires IsGreedy(LevelStep(b, t, remain).0, t, always, LevelStep(b, t, remain).1)
    ensures IsGreedy(b, t, always, remain)
  {
    hide Reports, Wf, Crosses, Step, Supply, LevelStep, Greedy, Flat, TradesSince, MatchLevels;
    var L := SideOf(b, Opposite(t.side));
    var T := Supply(L[1..], t, always);
    var (b1, r1) := LevelStep(b, t, remain);
    MatchGoesOn(b, t, always, remain);
    var b2 := MatchLevels(b1, t, always, r1).0;
    LevelStepIsGreedy(b, t, remain);
    SupplyFront(L, t, always);
    GreedyConcat(t, remain, L[0].queue, Flat(T));
    TradesCompose(b, b1, b2);
    var g, k := Greedy(t, remain, L[0].queue), Greedy(t, r1, Flat(T));
    ReportsConcat(t, g.fills, k.fills, TradesSince(b, b1), TradesSince(b1, b2));
    assert b.voids + (g.cuts + k.cuts) == b.voids + g.cuts + k.cuts;
  }

  // The taker is used up at the best level.
  lemma StopsAtLevel(b: Book, t: Order, always: bool, remain: Qty)
    requires Wf(b) && OnBook(t.side) && remain > 0
    requires var L := SideOf(b, Opposite(t.side));
      L != [] && (always || Crosses(t, L[0].price)) && Greedy(t, remain, L[0].queue).rest != []
    ensures IsGreedy(b, t, always, remain)
  {
    hide Reports, Wf, Crosses, Step, Supply, LevelStep, Greedy, Flat, TradesSince, MatchLevels;
    var L := SideOf(b, Opposite(t.side));
    var T := Supply(L[1..], t, always);
    var (b1, r1) := LevelStep(b, t, remain);
    LevelStepIsGreedy(b, t, remain);
    SupplyFront(L, t, always);
    GreedyConcat(t, remain, L[0].queue, Flat(T));
    var g := Greedy(t, remain, L[0].queue);
    FlatSplit(L[1..], t, always);
    FlatFront(Level(L[0].price, g.rest), L[1..]);
    Assoc(g.rest, Flat(T), Flat(L[1..][|T|..]));
    MatchGoesOn(b, t, always, remain);
    UsedUp(b1, t, always, r1);
  }

  lemma FlatSplit(L: Ladder, t: Order, always: bool)
    ensures var S := Supply(L, t, always); Flat(L) == Flat(S) + Flat(L[|S|..])
  {
    var S := Supply(L, t, always);
    assert L == S + L[|S|..];
    FlatConcat(S, L[|S|..]);
  }

  lemma UsedUp(b: Book, t: Order, always: bool, remain: Qty)
    requires OnBook(t.side) && remain <= 0
    ensures MatchLevels(b, t, always, remain) == (b, remain)
  {
  }
}
