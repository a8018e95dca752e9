// The crossing part of a ladder: what a limit order could take.
module Crossings {
  import opened Orders
  import opened Ladders
  import opened Matching
  import opened Books
  import opened Invariants

  lemma {:induction false} PositiveSum(q: seq<Order>)
    requires AllPositive(q)
    ensures SumQ(q, Volumes()) >= 0 && (q != [] ==> SumQ(q, Volumes()) > 0)
  {
    if q != [] { PositiveSum(q[1..]); }
  }

  // With positive volumes that is there being some, and enough of it.
  lemma {:induction false} CoversTotal(q: seq<Order>, need: Qty)
    requires AllPositive(q)
    ensures Covers(q, need) <==> q != [] && SumQ(q, Volumes()) >= need
    decreases q
  {
    if q != [] {
      CoversTotal(q[1..], need - q[0].volume);
      PositiveSum(q[1..]);
    }
  }

  lemma {:induction false} FlatConcat(A: Ladder, B: Ladder)
    ensures Flat(A + B) == Flat(A) + Flat(B)
  {
    if A == [] {
      assert A + B == B;
    } else {
      assert (A + B)[1..] == A[1..] + B;
      FlatConcat(A[1..], B);
    }
  }

  lemma FlatSnoc(L: Ladder, i: nat)
    ensures Flat(L[..0]) == []
    ensures i < |L| ==> Flat(L[..i + 1]) == Flat(L[..i]) + L[i].queue
  {
    if i < |L| {
      assert L[..i + 1] == L[..i] + [L[i]];
      FlatConcat(L[..i], [L[i]]);
      assert [L[i]][1..] == [];
    }
  }

  // The crossing orders from level i on.
  lemma CrossingStep(L: Ladder, t: Order, i: nat)
    requires i < |L|
    ensures Flat(Crossing(L[i..], t)) ==
      if Crosses(t, L[i].price) then L[i].queue + Flat(Crossing(L[i + 1..], t)) else []
  {
    var T := Crossing(L[i + 1..], t);
    assert L[i..][0] == L[i] && L[i..][1..] == L[i + 1..] && ([L[i]] + T)[1..] == T;
  }

  // The walk has come to the end, or to a level that does not cross.
  lemma CrossingEnds(L: Ladder, t: Order, i: nat, need: Qty)
    requires i == |L| || (i < |L| && !Crosses(t, L[i].price))
    ensures !Covers(Flat(Crossing(L[i..], t)), need)
  {
  }

  lemma CoversStep(q: seq<Order>, k: nat, rest: seq<Order>, need: Qty)
    requires k < |q|
    ensures Covers(q[k..] + rest, need) ==
      (need - q[k].volume <= 0 || Covers(q[k + 1..] + rest, need - q[k].volume))
  {
    assert (q[k..] + rest)[0] == q[k] && (q[k..] + rest)[1..] == q[k + 1..] + rest;
  }

  lemma SidePositive(s: Side, L: Ladder, i: nat)
    requires SideOk(s, L) && i < |L|
    ensures AllPositive(L[i].queue) && L[i].queue != [] && QueueOk(s, L[i].price, L[i].queue)
  {
    QueueAtIndex(s, L, i);
    assert QueueOk(s, L[i].price, QueueAt(L, L[i].price));
  }

  lemma {:induction false} FlatPositive(s: Side, L: Ladder, M: Ladder)
    requires SideOk(s, L) && forall l | l in M :: l in L
    ensures AllPositive(Flat(M))
  {
    if M != [] {
      assert M[0] in L;
      var i :| 0 <= i < |L| && L[i] == M[0];
      SidePositive(s, L, i);
      FlatPositive(s, L, M[1..]);
    }
  }
}
