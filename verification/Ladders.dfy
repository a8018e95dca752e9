// One side of the book as a value: price levels in priority order, each with a FIFO queue.
// Every change the book makes to a ladder is one `Put`: give the level at a price a new queue.
module Ladders {
  import opened Orders

  datatype Level = Level(price: Px, queue: seq<Order>)
  type Ladder = seq<Level>

  // p is strictly ahead of q in the priority of this side.
  predicate Better(s: Side, p: Px, q: Px) {
    if s.BUY? then p > q else p < q
  }

  ghost predicate Sorted(s: Side, L: Ladder) {
    forall i, j | 0 <= i < j < |L| :: Better(s, L[i].price, L[j].price)
  }

  // Strictly sorted, no empty level.
  ghost predicate Proper(s: Side, L: Ladder) {
    Sorted(s, L) && forall i | 0 <= i < |L| :: L[i].queue != []
  }

  // The queue resting at a price, empty when there is no such level.
  function QueueAt(L: Ladder, p: Px): seq<Order> {
    if L == [] then []
    else if L[0].price == p then L[0].queue
    else QueueAt(L[1..], p)
  }

  // Replaces the queue at p; the level is created or removed as needed.
  function Put(s: Side, L: Ladder, p: Px, q: seq<Order>): Ladder {
    if L == [] || Better(s, p, L[0].price) then
      if q == [] then L else [Level(p, q)] + L
    else if L[0].price == p then
      if q == [] then L[1..] else [Level(p, q)] + L[1..]
    else
      [L[0]] + Put(s, L[1..], p, q)
  }

  function Flat(L: Ladder): seq<Order> {
    if L == [] then [] else L[0].queue + Flat(L[1..])
  }

  function SumL(L: Ladder, f: Order -> int): int {
    if L == [] then 0 else SumQ(L[0].queue, f) + SumL(L[1..], f)
  }

  lemma {:induction false} QueueAtIndex(s: Side, L: Ladder, i: nat)
    requires Sorted(s, L) && i < |L|
    ensures QueueAt(L, L[i].price) == L[i].queue
  {
    if i > 0 {
      assert Better(s, L[0].price, L[i].price);
      QueueAtIndex(s, L[1..], i - 1);
    }
  }

  lemma {:induction false} QueueAtFound(L: Ladder, p: Px) returns (i: nat)
    requires QueueAt(L, p) != []
    ensures i < |L| && L[i].price == p && L[i].queue == QueueAt(L, p)
  {
    if L[0].price == p {
      i := 0;
    } else {
      i := QueueAtFound(L[1..], p);
      i := i + 1;
    }
  }

  // A price ahead of the best one has no level.
  lemma {:induction false} QueueAtBeyond(s: Side, L: Ladder, p: Px)
    requires Sorted(s, L) && (L == [] || Better(s, p, L[0].price))
    ensures QueueAt(L, p) == []
  {
    if L != [] { QueueAtBeyond(s, L[1..], p); }
  }

  lemma {:induction false} QueueAtPut(s: Side, L: Ladder, p: Px, q: seq<Order>, x: Px)
    requires Sorted(s, L)
    ensures QueueAt(Put(s, L, p, q), x) == if x == p then q else QueueAt(L, x)
  {
    if L == [] || Better(s, p, L[0].price) {
      QueueAtBeyond(s, L, p);
    } else if L[0].price == p {
      if x == p && q == [] && L[1..] != [] {
        assert Better(s, L[0].price, L[1].price);
        QueueAtBeyond(s, L[1..], p);
      }
    } else {
      QueueAtPut(s, L[1..], p, q, x);
    }
  }

  // The best price after a Put is the old best or p itself.
  lemma PutHead(s: Side, L: Ladder, p: Px, q: seq<Order>)
    requires Sorted(s, L)
    ensures var M := Put(s, L, p, q);
      M != [] ==> M[0].price == p || (L != [] && (M[0] == L[0] || Better(s, L[0].price, M[0].price)))
  {
  }

  lemma {:induction false} PutProper(s: Side, L: Ladder, p: Px, q: seq<Order>)
    requires OnBook(s) && Proper(s, L)
    ensures Proper(s, Put(s, L, p, q))
  {
    if L == [] || Better(s, p, L[0].price) || L[0].price == p {
    } else {
      PutProper(s, L[1..], p, q);
      var T := Put(s, L[1..], p, q);
      PutHead(s, L[1..], p, q);
      assert Put(s, L, p, q) == [L[0]] + T;
      if T != [] {
        assert Better(s, L[0].price, T[0].price);
      }
    }
  }

  // A proper ladder is determined by the queue it holds at every price.
  lemma {:induction false} LadderExtensionality(s: Side, L: Ladder, M: Ladder)
    requires Proper(s, L) && Proper(s, M)
    requires forall p :: QueueAt(L, p) == QueueAt(M, p)
    ensures L == M
  {
    assert L != [] ==> QueueAt(L, L[0].price) == QueueAt(M, L[0].price);
    assert M != [] ==> QueueAt(L, M[0].price) == QueueAt(M, M[0].price);
    if L != [] && M != [] {
      var p, r := L[0].price, M[0].price;
      assert QueueAt(L, p) == QueueAt(M, p) && QueueAt(L, r) == QueueAt(M, r);
      if Better(s, p, r) { QueueAtBeyond(s, M, p); }
      if Better(s, r, p) { QueueAtBeyond(s, L, r); }
      assert p == r;
      forall x ensures QueueAt(L[1..], x) == QueueAt(M[1..], x) {
        assert QueueAt(L, x) == QueueAt(M, x);
        if x == p {
          QueueAtTail(s, L);
          QueueAtTail(s, M);
        }
      }
      LadderExtensionality(s, L[1..], M[1..]);
      assert L == [L[0]] + L[1..] && M == [M[0]] + M[1..];
    }
  }

  lemma QueueAtTail(s: Side, L: Ladder)
    requires Sorted(s, L) && L != []
    ensures QueueAt(L[1..], L[0].price) == []
  {
    if L[1..] != [] { assert Better(s, L[0].price, L[1].price); }
    QueueAtBeyond(s, L[1..], L[0].price);
  }

  // Two changes at one price collapse into the second.
  lemma PutPut(s: Side, L: Ladder, p: Px, q: seq<Order>, r: seq<Order>)
    requires OnBook(s) && Proper(s, L)
    ensures Put(s, Put(s, L, p, q), p, r) == Put(s, L, p, r)
  {
    PutProper(s, L, p, q);
    PutProper(s, Put(s, L, p, q), p, r);
    PutProper(s, L, p, r);
    forall x ensures QueueAt(Put(s, Put(s, L, p, q), p, r), x) == QueueAt(Put(s, L, p, r), x) {
      QueueAtPut(s, L, p, q, x);
      QueueAtPut(s, Put(s, L, p, q), p, r, x);
      QueueAtPut(s, L, p, r, x);
    }
    LadderExtensionality(s, Put(s, Put(s, L, p, q), p, r), Put(s, L, p, r));
  }

  // Writing back what is there changes nothing.
  lemma PutSame(s: Side, L: Ladder, p: Px)
    requires OnBook(s) && Proper(s, L)
    ensures Put(s, L, p, QueueAt(L, p)) == L
  {
    PutProper(s, L, p, QueueAt(L, p));
    forall x ensures QueueAt(Put(s, L, p, QueueAt(L, p)), x) == QueueAt(L, x) {
      QueueAtPut(s, L, p, QueueAt(L, p), x);
    }
    LadderExtensionality(s, Put(s, L, p, QueueAt(L, p)), L);
  }

  // ---- Put as the slice operations of the source, given the level's index ----

  lemma {:induction false} PutReplaces(s: Side, L: Ladder, i: nat, q: seq<Order>)
    requires Sorted(s, L) && i < |L|
    ensures Put(s, L, L[i].price, q) ==
      if q == [] then L[..i] + L[i + 1..] else L[i := Level(L[i].price, q)]
  {
    if i > 0 {
      assert Better(s, L[0].price, L[i].price);
      var p, T := L[i].price, L[1..];
      assert T[i - 1] == L[i];
      PutReplaces(s, T, i - 1, q);
      assert Put(s, L, p, q) == [L[0]] + Put(s, T, p, q);
      ConsRemove(L, i);
      ConsUpdate(L, i, Level(p, q));
    }
  }

  // The same for a ladder whose level already holds the new queue.
  lemma PutAgain(s: Side, L: Ladder, i: nat, q: seq<Order>)
    requires i < |L| && Sorted(s, L[i := Level(L[i].price, q)])
    ensures Put(s, L, L[i].price, q) ==
      if q == [] then RemoveAt(L[i := Level(L[i].price, q)], i) else L[i := Level(L[i].price, q)]
  {
    var M := L[i := Level(L[i].price, q)];
    assert forall j | 0 <= j < |L| :: M[j].price == L[j].price;
    PutReplaces(s, L, i, q);
  }

  lemma {:induction false} PutInserts(s: Side, L: Ladder, i: nat, p: Px, q: seq<Order>)
    requires Sorted(s, L) && i <= |L| && q != []
    requires forall k | 0 <= k < i :: Better(s, L[k].price, p)
    requires forall k | i <= k < |L| :: Better(s, p, L[k].price)
    ensures Put(s, L, p, q) == L[..i] + [Level(p, q)] + L[i..]
    ensures QueueAt(L, p) == []
  {
    if i == 0 {
      QueueAtBeyond(s, L, p);
    } else {
      PutInserts(s, L[1..], i - 1, p, q);
      assert L[1..][..i - 1] + [Level(p, q)] + L[1..][i - 1..] == L[1..i] + [Level(p, q)] + L[i..];
      assert [L[0]] + (L[1..i] + [Level(p, q)] + L[i..]) == L[..i] + [Level(p, q)] + L[i..];
    }
  }

  // ---- sums ----

  lemma {:induction false} SumPut(s: Side, L: Ladder, p: Px, q: seq<Order>, f: Order -> int)
    requires Sorted(s, L)
    ensures SumL(Put(s, L, p, q), f) == SumL(L, f) - SumQ(QueueAt(L, p), f) + SumQ(q, f)
  {
    if L == [] || Better(s, p, L[0].price) {
      QueueAtBeyond(s, L, p);
      if q != [] { assert ([Level(p, q)] + L)[1..] == L; }
    } else if L[0].price == p {
      if q != [] { assert ([Level(p, q)] + L[1..])[1..] == L[1..]; }
    } else {
      SumPut(s, L[1..], p, q, f);
      assert ([L[0]] + Put(s, L[1..], p, q))[1..] == Put(s, L[1..], p, q);
    }
  }

  lemma {:induction false} SumFlat(L: Ladder, f: Order -> int)
    ensures SumQ(Flat(L), f) == SumL(L, f)
  {
    if L != [] {
      SumFlat(L[1..], f);
      SumConcat(L[0].queue, Flat(L[1..]), f);
    }
  }
}
