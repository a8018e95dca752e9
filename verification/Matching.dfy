// The greedy matching rule on one priority queue, as a recursion on the queue. The nested loops
// of the book are proved against it, first per price level and then over the whole side.
module Matching {
  import opened Orders

  // `qty` of the resting (or incoming) `order` changed hands, or was withdrawn.
  datatype Fill = Fill(order: Order, qty: Qty)

  // Outcome of matching: the taker's remainder, what is left of the queue, the real fills in
  // order, and the volume withdrawn on either side by self-trade prevention.
  datatype Hit = Hit(remain: Qty, rest: seq<Order>, fills: seq<Fill>, cuts: seq<Fill>)

  function Left(r: Order, f: Qty): seq<Order> {
    if f == r.volume then [] else [r.(volume := r.volume - f)]
  }

  // One taker against one resting order; `rest` holds the resting order if it survives.
  function Step(t: Order, remain: Qty, r: Order): Hit {
    if SelfTrade(t, r) then
      match t.stp
      case CancelResting => Hit(remain, [], [], [Fill(r, r.volume)])
      case CancelBoth => Hit(0, [], [], [Fill(r, r.volume), Fill(t, remain)])
      case Decrement =>
        var f := MinQty(remain, r.volume);
        Hit(remain - f, Left(r, f), [], [Fill(r, f), Fill(t, f)])
      case _ => Hit(0, [r], [], [Fill(t, remain)])
    else
      var f := MinQty(remain, r.volume);
      Hit(remain - f, Left(r, f), [Fill(r, f)], [])
  }

  // A step shows in the level's total exactly when it changes the queue, and a real fill
  // always does.
  lemma StepShows(t: Order, remain: Qty, q: seq<Order>)
    requires remain > 0 && q != [] && q[0].volume > 0
    ensures var r := Step(t, remain, q[0]).rest + q[1..];
      && (SumQ(r, Volumes()) != SumQ(q, Volumes()) <==> r != q)
      && (!SelfTrade(t, q[0]) ==> r != q)
  {
    hide Step;
    var h := Step(t, remain, q[0]);
    StepShape(t, remain, q[0]);
    if !SelfTrade(t, q[0]) { StepFills(t, remain, q[0]); }
    if h.rest == [] {
      assert h.rest + q[1..] == q[1..];
    } else {
      assert h.rest + q[1..] == [h.rest[0]] + q[1..];
      assert q == [q[0]] + q[1..];
    }
  }

  lemma StepFills(t: Order, remain: Qty, r: Order)
    requires !SelfTrade(t, r)
    ensures var f := MinQty(remain, r.volume);
      Step(t, remain, r) == Hit(remain - f, Left(r, f), [Fill(r, f)], [])
  {
  }

  lemma StepWithdraws(t: Order, remain: Qty, r: Order)
    requires SelfTrade(t, r)
    ensures Step(t, remain, r).fills == []
  {
  }

  // How one step moves the queue.
  lemma StepQueue(t: Order, remain: Qty, q: seq<Order>)
    requires AllPositive(q) && remain > 0 && q != []
    ensures var h := Step(t, remain, q[0]); var r := h.rest + q[1..];
      && AllPositive(r) && |r| <= |q|
      && (|r| == |q| ==> h.remain <= 0)
  {
    var h := Step(t, remain, q[0]);
    var r := h.rest + q[1..];
    assert forall i | 0 <= i < |r| :: r[i] == if i < |h.rest| then h.rest[i] else q[i - |h.rest| + 1];
  }

  // At most one fill, of the resting order, and what it leaves.
  lemma StepFilled(t: Order, remain: Qty, r: Order)
    requires remain > 0 && r.volume > 0
    ensures var h := Step(t, remain, r);
      && |h.fills| <= 1
      && (h.fills != [] ==>
            && h.fills[0].order == r && !SelfTrade(t, r) && 0 < h.fills[0].qty <= r.volume
            && h.rest == Left(r, h.fills[0].qty))
  {
  }

  lemma StepStops(t: Order, remain: Qty, r: Order)
    ensures Step(t, remain, r).rest == [] || Step(t, remain, r).remain <= 0
  {
  }

  // What a step spends, unless it takes out an own order for nothing.
  lemma StepSpends(t: Order, remain: Qty, r: Order)
    requires remain > 0 && r.volume > 0 && !(t.stp.CancelResting? && t.userID != 0)
    ensures var h := Step(t, remain, r);
      h.remain >= 0 && (h.rest != [] ==> h.remain == 0) && (h.remain > 0 ==> h.remain == remain - r.volume)
  {
  }

  // Every step removes the resting order or exhausts the taker, which is why the loops end.
  function Greedy(t: Order, remain: Qty, q: seq<Order>): (h: Hit)
    ensures h.rest == [] || h.remain <= 0
    ensures |h.rest| <= |q|
    decreases q
  {
    if remain <= 0 || q == [] then Hit(remain, q, [], [])
    else
      var s := Step(t, remain, q[0]);
      if s.rest != [] then s.(rest := s.rest + q[1..])
      else
        var g := Greedy(t, s.remain, q[1..]);
        Hit(g.remain, g.rest, s.fills + g.fills, s.cuts + g.cuts)
  }

  // The matching of q0 has come as far as q, with this much left and this much recorded.
  ghost predicate Along(t: Order, r0: Qty, q0: seq<Order>, left: Qty, q: seq<Order>, fills: seq<Fill>,
      cuts: seq<Fill>) {
    var g := Greedy(t, left, q);
    Greedy(t, r0, q0) == Hit(g.remain, g.rest, fills + g.fills, cuts + g.cuts)
  }

  lemma AlongStarts(t: Order, r0: Qty, q0: seq<Order>)
    ensures Along(t, r0, q0, r0, q0, [], [])
  {
    var g := Greedy(t, r0, q0);
    assert [] + g.fills == g.fills && [] + g.cuts == g.cuts;
  }

  lemma AlongStep(t: Order, r0: Qty, q0: seq<Order>, left: Qty, q: seq<Order>, fills: seq<Fill>, cuts: seq<Fill>)
    requires Along(t, r0, q0, left, q, fills, cuts) && left > 0 && q != []
    ensures var h := Step(t, left, q[0]);
      Along(t, r0, q0, h.remain, h.rest + q[1..], fills + h.fills, cuts + h.cuts)
  {
    hide Step;
    var h := Step(t, left, q[0]);
    var g := Greedy(t, h.remain, h.rest + q[1..]);
    StepStops(t, left, q[0]);
    if h.rest == [] {
      assert h.rest + q[1..] == q[1..];
    } else {
      assert g.fills == [] && g.cuts == [];
      assert h.fills + [] == h.fills && h.cuts + [] == h.cuts;
    }
    assert fills + (h.fills + g.fills) == fills + h.fills + g.fills;
    assert cuts + (h.cuts + g.cuts) == cuts + h.cuts + g.cuts;
  }

  lemma AlongEnds(t: Order, r0: Qty, q0: seq<Order>, left: Qty, q: seq<Order>, fills: seq<Fill>, cuts: seq<Fill>)
    requires Along(t, r0, q0, left, q, fills, cuts) && (left <= 0 || q == [])
    ensures Greedy(t, r0, q0) == Hit(left, q, fills, cuts)
  {
    assert fills + [] == fills && cuts + [] == cuts;
  }

  ghost predicate AllPositive(q: seq<Order>) {
    forall i | 0 <= i < |q| :: q[i].volume > 0
  }

  function FillTotal(fs: seq<Fill>): int {
    if fs == [] then 0 else fs[0].qty + FillTotal(fs[1..])
  }

  // Volume of one order id in a list of fills.
  function FillVol(fs: seq<Fill>, id: int): int {
    if fs == [] then 0 else (if fs[0].order.id == id then fs[0].qty else 0) + FillVol(fs[1..], id)
  }

  lemma {:induction false} FillVolConcat(a: seq<Fill>, b: seq<Fill>, id: int)
    ensures FillVol(a + b, id) == FillVol(a, id) + FillVol(b, id)
    ensures FillTotal(a + b) == FillTotal(a) + FillTotal(b)
  {
    if a == [] {
      assert a + b == b;
    } else {
      assert (a + b)[1..] == a[1..] + b;
      FillVolConcat(a[1..], b, id);
    }
  }

  // Matching a queue is matching its front part and then, if that is used up, the rest.
  lemma {:induction false} GreedyConcat(t: Order, remain: Qty, a: seq<Order>, b: seq<Order>)
    ensures var g := Greedy(t, remain, a);
      Greedy(t, remain, a + b) ==
        if g.rest != [] then g.(rest := g.rest + b)
        else var k := Greedy(t, g.remain, b);
          Hit(k.remain, k.rest, g.fills + k.fills, g.cuts + k.cuts)
    decreases a
  {
    hide Step;
    if a == [] {
      assert a + b == b;
      var k := Greedy(t, remain, b);
      assert [] + k.fills == k.fills && [] + k.cuts == k.cuts;
    } else if remain > 0 {
      var s := Step(t, remain, a[0]);
      assert (a + b)[1..] == a[1..] + b;
      if s.rest != [] {
        assert s.rest + (a[1..] + b) == s.rest + a[1..] + b;
      } else {
        GreedyConcat(t, s.remain, a[1..], b);
        var g := Greedy(t, s.remain, a[1..]);
        var k := Greedy(t, g.remain, b);
        assert s.fills + (g.fills + k.fills) == s.fills + g.fills + k.fills;
        assert s.cuts + (g.cuts + k.cuts) == s.cuts + g.cuts + k.cuts;
      }
    }
  }

  // Ledger of one matching pass: for every id, what it had is what it keeps, plus what it
  // traded, plus what was withdrawn. The taker trades against every fill.
  lemma {:induction false} GreedyConserves(t: Order, remain: Qty, q: seq<Order>, id: int)
    ensures var h := Greedy(t, remain, q);
      SumQ(q, VolumeOf(id)) + (if id == t.id then remain else 0) ==
      SumQ(h.rest, VolumeOf(id)) + (if id == t.id then h.remain + FillTotal(h.fills) else 0)
        + FillVol(h.fills, id) + FillVol(h.cuts, id)
    decreases q
  {
    if remain > 0 && q != [] {
      var s := Step(t, remain, q[0]);
      StepConserves(t, remain, q[0], id);
      if s.rest != [] {
        assert s.rest + q[1..] == [s.rest[0]] + q[1..];
        assert (s.rest + q[1..])[1..] == q[1..];
      } else {
        var g := Greedy(t, s.remain, q[1..]);
        GreedyConserves(t, s.remain, q[1..], id);
        FillVolConcat(s.fills, g.fills, id);
        FillVolConcat(s.cuts, g.cuts, id);
      }
    }
  }

  lemma StepConserves(t: Order, remain: Qty, r: Order, id: int)
    ensures var h := Step(t, remain, r);
      |h.rest| <= 1 &&
      VolumeOf(id)(r) + (if id == t.id then remain else 0) ==
      (if h.rest == [] then 0 else VolumeOf(id)(h.rest[0]))
        + (if id == t.id then h.remain + FillTotal(h.fills) else 0)
        + FillVol(h.fills, id) + FillVol(h.cuts, id)
  {
    var h := Step(t, remain, r);
    assert |h.fills| >= 1 ==> h.fills[1..] == [];
    assert |h.cuts| == 1 ==> h.cuts[1..] == [];
    assert |h.cuts| == 2 ==> h.cuts[1..] == [h.cuts[1]] && h.cuts[1..][1..] == [];
  }

  // Exactly a prefix of the queue is consumed, at most the first survivor is reduced, and the
  // rest is untouched. `Used` is the length of that prefix.
  function Used(q: seq<Order>, rest: seq<Order>): int {
    |q| - |rest|
  }

  lemma StepShape(t: Order, remain: Qty, r: Order)
    requires remain > 0 && r.volume > 0
    ensures var h := Step(t, remain, r);
      && 0 <= h.remain <= remain
      && (h.rest == [] ||
          (h.rest == [r.(volume := h.rest[0].volume)] && 0 < h.rest[0].volume <= r.volume && h.remain == 0))
  {
  }

  lemma {:induction false} GreedyTakesPrefix(t: Order, remain: Qty, q: seq<Order>)
    requires AllPositive(q)
    ensures var h := Greedy(t, remain, q); var k := Used(q, h.rest);
      && 0 <= k <= |q|
      && (h.rest != [] ==>
            && h.rest[1..] == q[k + 1..]
            && h.rest[0] == q[k].(volume := h.rest[0].volume)
            && 0 < h.rest[0].volume <= q[k].volume)
      && (remain >= 0 ==> 0 <= h.remain <= remain)
    decreases q
  {
    hide Step;
    if remain > 0 && q != [] {
      var s := Step(t, remain, q[0]);
      StepShape(t, remain, q[0]);
      if s.rest == [] {
        GreedyTakesPrefix(t, s.remain, q[1..]);
        var k := Used(q, Greedy(t, remain, q).rest);
        if Greedy(t, remain, q).rest != [] { assert q[1..][k..] == q[k + 1..]; }
      } else {
        assert s.rest + q[1..] == [s.rest[0]] + q[1..];
      }
    }
  }

  // The total never rises, and is the same only if the queue is.
  lemma {:induction false} GreedyLowers(t: Order, remain: Qty, q: seq<Order>)
    requires AllPositive(q)
    ensures var r := Greedy(t, remain, q).rest;
      SumQ(r, Volumes()) <= SumQ(q, Volumes()) && (SumQ(r, Volumes()) == SumQ(q, Volumes()) <==> r == q)
    decreases q
  {
    hide Step;
    if remain > 0 && q != [] {
      var s := Step(t, remain, q[0]);
      StepShape(t, remain, q[0]);
      if s.rest == [] {
        GreedyLowers(t, s.remain, q[1..]);
      } else {
        var r := s.rest + q[1..];
        assert r[1..] == q[1..] && r == [r[0]] + q[1..] && q == [q[0]] + q[1..];
      }
    }
  }

  // Fill f took from position j of q: someone else's order, wholly consumed unless it is the
  // one order left reduced at the front of the rest.
  ghost predicate FilledAt(t: Order, q: seq<Order>, rest: seq<Order>, f: Fill, j: int) {
    && 0 <= j < |q| && f.order == q[j] && !SelfTrade(t, q[j])
    && 0 < f.qty <= q[j].volume
    && (j < Used(q, rest) || (j == Used(q, rest) && rest != [] && f.qty == q[j].volume - rest[0].volume))
  }

  // So no order is filled while an earlier one of its queue stays.
  lemma {:induction false} GreedyFillsInOrder(t: Order, remain: Qty, q: seq<Order>, i: nat) returns (j: int)
    requires AllPositive(q) && i < |Greedy(t, remain, q).fills|
    ensures FilledAt(t, q, Greedy(t, remain, q).rest, Greedy(t, remain, q).fills[i], j)
    decreases q
  {
    hide Step, SelfTrade;
    var s := Step(t, remain, q[0]);
    StepFilled(t, remain, q[0]);
    if i < |s.fills| {
      j := 0;
    } else {
      j := GreedyFillsInOrder(t, s.remain, q[1..], i - |s.fills|);
      j := j + 1;
    }
  }

  // Withdrawals are never negative.
  ghost predicate NoNegative(f: seq<Fill>) {
    forall i | 0 <= i < |f| :: f[i].qty >= 0
  }

  lemma {:induction false} GreedyCuts(t: Order, remain: Qty, q: seq<Order>)
    requires AllPositive(q)
    ensures NoNegative(Greedy(t, remain, q).cuts)
    decreases q
  {
    if remain > 0 && q != [] {
      var s := Step(t, remain, q[0]);
      assert NoNegative(s.cuts);
      if s.rest == [] { GreedyCuts(t, s.remain, q[1..]); }
    }
  }

  ghost predicate NoSelfTrade(t: Order, q: seq<Order>) {
    forall i | 0 <= i < |q| :: !SelfTrade(t, q[i])
  }

  // When no order of the queue is the taker's own, the total traded is the smaller of demand
  // and supply, and nothing is withdrawn.
  lemma {:induction false} GreedyTotals(t: Order, remain: Qty, q: seq<Order>)
    requires AllPositive(q) && NoSelfTrade(t, q)
    ensures var h := Greedy(t, remain, q);
      && h.cuts == []
      && SumQ(q, Volumes()) >= 0
      && (remain > 0 ==> FillTotal(h.fills) == MinQty(remain, SumQ(q, Volumes())))
      && h.remain == remain - FillTotal(h.fills)
    decreases q
  {
    if q != [] {
      var s := Step(t, remain, q[0]);
      GreedyTotals(t, s.remain, q[1..]);
      FillVolConcat(s.fills, Greedy(t, s.remain, q[1..]).fills, 0);
      assert s.fills[1..] == [];
    }
  }

  // ... and the i-th order gets its whole volume or what the orders ahead of it left over.
  lemma {:induction false} GreedyShares(t: Order, remain: Qty, q: seq<Order>, i: nat)
    requires AllPositive(q) && NoSelfTrade(t, q)
    requires i < |Greedy(t, remain, q).fills|
    ensures i < |q|
    ensures Greedy(t, remain, q).fills[i] ==
      Fill(q[i], MinQty(q[i].volume, remain - SumQ(q[..i], Volumes())))
    decreases q
  {
    hide Step, SelfTrade;
    var s := Step(t, remain, q[0]);
    StepFills(t, remain, q[0]);
    if i > 0 {
      GreedyShares(t, s.remain, q[1..], i - 1);
      assert q[1..][..i - 1] == q[..i][1..];
    }
  }
}
