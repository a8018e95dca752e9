// Time priority over whole runs: orders that stay keep their order in the queue.
module Priority {
  import opened Orders
  import opened Ladders
  import opened Books
  import opened Invariants
  import opened Moves
  import opened Plans
  import opened Runs

  // x waits ahead of y in q.
  predicate Ahead(q: seq<Order>, x: int, y: int) {
    IndexOf(q, x) < IndexOf(q, y) < |q|
  }

  predicate Contains(q: seq<Order>, x: int) {
    IndexOf(q, x) < |q|
  }

  function QueueOf(b: Book, s: Side, p: Px): seq<Order> {
    QueueAt(SideOf(b, s), p)
  }

  lemma {:induction false} IdSubCounts(r: seq<Order>, q: seq<Order>, x: int)
    requires IdSub(r, q)
    ensures SumQ(r, CountOf(x)) <= SumQ(q, CountOf(x))
    decreases |q|
  {
    if r == [] {
      CountNonNegative(q, x);
    } else if r[0].id == q[0].id {
      IdSubCounts(r[1..], q[1..], x);
    } else {
      IdSubCounts(r, q[1..], x);
    }
  }

  lemma {:induction false} IdSubOrder(r: seq<Order>, q: seq<Order>, x: int, y: int)
    requires IdSub(r, q) && Ahead(q, x, y) && Contains(r, x) && Contains(r, y)
    requires SumQ(q, CountOf(x)) <= 1 && SumQ(q, CountOf(y)) <= 1
    ensures Ahead(r, x, y)
    decreases |q|
  {
    CountNonNegative(r, x);
    CountNonNegative(q[1..], y);
    if r[0].id == q[0].id {
      if q[0].id != x { IdSubOrder(r[1..], q[1..], x, y); }
    } else {
      IdSubCounts(r, q[1..], x);
      IdSubOrder(r, q[1..], x, y);
    }
  }

  lemma {:induction false} IndexOfAppend(q: seq<Order>, o: Order, x: int)
    requires o.id != x
    ensures IndexOf(q + [o], x) == if Contains(q, x) then IndexOf(q, x) else |q| + 1
    ensures SumQ(q + [o], CountOf(x)) == SumQ(q, CountOf(x))
  {
    if q == [] {
      assert [o][1..] == [];
      assert q + [o] == [o];
    } else {
      assert (q + [o])[1..] == q[1..] + [o];
      IndexOfAppend(q[1..], o, x);
    }
  }

  // One fair change of the queue.
  lemma FairKeeps(q: seq<Order>, r: seq<Order>, tag: int, x: int, y: int)
    requires Fair(q, r, tag) && tag != x && tag != y
    requires SumQ(q, CountOf(x)) <= 1 && SumQ(q, CountOf(y)) <= 1
    ensures SumQ(r, CountOf(x)) <= SumQ(q, CountOf(x)) && SumQ(r, CountOf(y)) <= SumQ(q, CountOf(y))
    ensures Contains(r, x) ==> Contains(q, x)
    ensures Ahead(q, x, y) && Contains(r, x) && Contains(r, y) ==> Ahead(r, x, y)
  {
    if IdSub(r, q) {
      IdSubCounts(r, q, x);
      IdSubCounts(r, q, y);
      CountNonNegative(r, x);
      CountNonNegative(q, x);
      if Ahead(q, x, y) && Contains(r, x) && Contains(r, y) { IdSubOrder(r, q, x, y); }
    } else {
      assert r == q + [r[|q|]];
      IndexOfAppend(q, r[|q|], x);
      IndexOfAppend(q, r[|q|], y);
    }
  }

  lemma DoKeeps(b: Book, m: Move, tag: int, s: Side, p: Px, x: int, y: int)
    requires SidesOk(b) && OnBook(s) && Legal(b, m, tag) && tag != x && tag != y
    requires SumQ(QueueOf(b, s, p), CountOf(x)) <= 1 && SumQ(QueueOf(b, s, p), CountOf(y)) <= 1
    ensures SidesOk(Do(b, m))
    ensures var q, r := QueueOf(b, s, p), QueueOf(Do(b, m), s, p);
      && SumQ(r, CountOf(x)) <= SumQ(q, CountOf(x)) && SumQ(r, CountOf(y)) <= SumQ(q, CountOf(y))
      && (Contains(r, x) ==> Contains(q, x))
      && (Ahead(q, x, y) && Contains(r, x) && Contains(r, y) ==> Ahead(r, x, y))
  {
    if m.Quote? {
      SidePut(m.s, SideOf(b, m.s), m.p, m.q);
      QueueAtPut(m.s, SideOf(b, m.s), m.p, m.q, p);
      if m.s == s && m.p == p { FairKeeps(QueueOf(b, s, p), m.q, tag, x, y); }
    }
  }

  lemma {:induction false} ExecKeeps(b: Book, ms: seq<Move>, tag: int, s: Side, p: Px, x: int, y: int)
    requires SidesOk(b) && OnBook(s) && LegalMoves(b, ms, tag) && tag != x && tag != y
    requires SumQ(QueueOf(b, s, p), CountOf(x)) <= 1 && SumQ(QueueOf(b, s, p), CountOf(y)) <= 1
    ensures var q, r := QueueOf(b, s, p), QueueOf(Exec(b, ms), s, p);
      && (Contains(r, x) ==> Contains(q, x))
      && (Ahead(q, x, y) && Contains(r, x) && Contains(r, y) ==> Ahead(r, x, y))
    decreases |ms|
  {
    if ms != [] {
      var b1 := Do(b, ms[0]);
      DoKeeps(b, ms[0], tag, s, p, x, y);
      DoKeeps(b, ms[0], tag, s, p, y, x);
      ExecKeeps(b1, ms[1..], tag, s, p, x, y);
      ExecKeeps(b1, ms[1..], tag, s, p, y, x);
    }
  }

  // This operation does not put x or y at the tail of a queue.
  predicate Spares(b: Book, op: Op, x: int, y: int) {
    Requeues(b, op) ==> Subject(op) != x && Subject(op) != y
  }

  lemma SingleCopy(b: Book, s: Side, p: Px, x: int)
    requires Wf(b) && OnBook(s)
    ensures SumQ(QueueOf(b, s, p), CountOf(x)) <= 1
  {
    CountPart(SideOf(b, s), p, x);
    CountLadder(b.bids, x);
    CountLadder(b.asks, x);
    assert Copies(b, x) <= 1;
  }

  lemma {:induction false} CountPart(L: Ladder, p: Px, x: int)
    ensures SumQ(QueueAt(L, p), CountOf(x)) <= SumL(L, CountOf(x))
  {
    if L != [] {
      CountPart(L[1..], p, x);
      CountNonNegative(L[0].queue, x);
      CountLadder(L[1..], x);
    }
  }

  // One operation: two orders that rest at the same price before and after it keep their order,
  // unless it re-queues one of them.
  lemma ApplyKeepsOrder(b: Book, op: Op, s: Side, p: Px, x: int, y: int)
    requires Sound(b) && Admissible(b, op) && OnBook(s) && Spares(b, op, x, y)
    requires Ahead(QueueOf(b, s, p), x, y)
    requires Contains(QueueOf(Apply(b, op).book, s, p), x) && Contains(QueueOf(Apply(b, op).book, s, p), y)
    ensures Ahead(QueueOf(Apply(b, op).book, s, p), x, y)
  {
    var other := (if x < y then y else x) + 1;
    var tag := if Requeues(b, op) then Subject(op) else other;
    var ms := ApplyLeads(b, b, op, tag);
    SingleCopy(b, s, p, x);
    SingleCopy(b, s, p, y);
    ExecKeeps(b, ms, tag, s, p, x, y);
  }

  // x and y rest at (s, p) in every state of the run, and no operation of it re-queues them.
  ghost predicate Stay(b: Book, ops: seq<Op>, s: Side, p: Px, x: int, y: int) {
    && (forall k | 0 <= k <= |ops| ::
          Contains(QueueOf(Run(b, ops[..k]), s, p), x) && Contains(QueueOf(Run(b, ops[..k]), s, p), y))
    && (forall k | 0 <= k < |ops| :: Spares(Run(b, ops[..k]), ops[k], x, y))
  }

  // First in, first out, over every run.
  lemma {:induction false} RunKeepsOrder(b: Book, ops: seq<Op>, s: Side, p: Px, x: int, y: int)
    requires Sound(b) && AdmissibleRun(b, ops) && OnBook(s)
    requires Ahead(QueueOf(b, s, p), x, y) && Stay(b, ops, s, p, x, y)
    ensures Ahead(QueueOf(Run(b, ops), s, p), x, y)
    decreases |ops|
  {
    hide Contains, Spares, Apply, Ahead, Sound, QueueAt, AdmissibleRun;
    if ops != [] {
      var n := |ops| - 1;
      assert ops[..n + 1] == ops;
      RunPrefix(b, ops);
      assert Stay(b, ops[..n], s, p, x, y) by {
        assert forall k | 0 <= k <= n :: ops[..n][..k] == ops[..k];
      }
      RunKeepsOrder(b, ops[..n], s, p, x, y);
      RunSound(b, ops[..n]);
      assert Spares(Run(b, ops[..n]), ops[n], x, y);
      ApplyKeepsOrder(Run(b, ops[..n]), ops[n], s, p, x, y);
    }
  }
}
