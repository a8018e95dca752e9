// Every operation is a sequence of four kinds of move, chosen by looking at the ladders alone:
// not at the sequence counter, the tape or whether a sink is installed. What moves do to the
// tape, the published depth and the queues is then studied once, for all operations.
module Moves {
  import opened Orders
  import opened Ladders
  import opened Matching
  import opened Books
  import opened Invariants

  datatype Move =
    | Quote(s: Side, p: Px, q: seq<Order>)                  // new queue at a price, published
    | Print(t: Order, restingId: int, price: Px, qty: Qty)  // a numbered trade
    | Cut(f: Fill)                                          // volume withdrawn
    | Park(o: Order)                                        // a stop order put aside

  function Do(b: Book, m: Move): Book {
    match m
    case Quote(s, p, q) => Requeue(b, s, p, q)
    case Print(t, id, p, v) =>
      b.(seqNo := b.seqNo + 1, tape := b.tape + [Trade(MakeMatch(t, id, p, v, b.seqNo + 1))])
    case Cut(f) => b.(voids := b.voids + [f])
    case Park(o) => b.(parked := b.parked + [o])
  }

  function Exec(b: Book, ms: seq<Move>): Book
    decreases |ms|
  {
    if ms == [] then b else Exec(Do(b, ms[0]), ms[1..])
  }

  // ---- which moves are legal ----

  // The ids of r, in order, are among those of q.
  predicate IdSub(r: seq<Order>, q: seq<Order>)
    decreases |q|
  {
    if r == [] then true
    else if q == [] then false
    else if r[0].id == q[0].id then IdSub(r[1..], q[1..])
    else IdSub(r, q[1..])
  }

  // The queue q may become r in an operation on the order `id`: orders leave or change volume
  // where they stand, or that one order joins the tail.
  ghost predicate Fair(q: seq<Order>, r: seq<Order>, id: int) {
    IdSub(r, q) || (|r| == |q| + 1 && r[..|q|] == q && r[|q|].id == id)
  }

  ghost predicate Legal(b: Book, m: Move, id: int) {
    && (m.Cut? ==> m.f.qty >= 0)
    && (m.Quote? ==>
          && OnBook(m.s) && QueueOk(m.s, m.p, m.q)
          && SumQ(m.q, Volumes()) != SumQ(QueueAt(SideOf(b, m.s), m.p), Volumes())
          && Fair(QueueAt(SideOf(b, m.s), m.p), m.q, id))
  }

  ghost predicate LegalMoves(b: Book, ms: seq<Move>, id: int)
    decreases |ms|
  {
    ms == [] || (Legal(b, ms[0], id) && LegalMoves(Do(b, ms[0]), ms[1..], id))
  }

  predicate Same(b: Book, c: Book) {
    b.bids == c.bids && b.asks == c.asks
  }

  lemma {:induction false} ExecConcat(b: Book, ms: seq<Move>, ns: seq<Move>)
    ensures Exec(b, ms + ns) == Exec(Exec(b, ms), ns)
    decreases |ms|
  {
    if ms == [] {
      assert ms + ns == ns;
    } else {
      assert (ms + ns)[1..] == ms[1..] + ns;
      ExecConcat(Do(b, ms[0]), ms[1..], ns);
    }
  }

  lemma {:induction false} LegalConcat(b: Book, ms: seq<Move>, ns: seq<Move>, id: int)
    requires LegalMoves(b, ms, id) && LegalMoves(Exec(b, ms), ns, id)
    ensures LegalMoves(b, ms + ns, id)
    decreases |ms|
  {
    if ms == [] {
      assert ms + ns == ns;
    } else {
      assert (ms + ns)[1..] == ms[1..] + ns;
      LegalConcat(Do(b, ms[0]), ms[1..], ns, id);
    }
  }

  // ms takes b to b' and c to c', legally.
  ghost predicate Leads(b: Book, b': Book, c: Book, c': Book, ms: seq<Move>, id: int) {
    Exec(b, ms) == b' && Exec(c, ms) == c' && LegalMoves(b, ms, id) && Same(b', c')
  }

  lemma LeadsThen(b: Book, b1: Book, b2: Book, c: Book, c1: Book, c2: Book, ms: seq<Move>, ns: seq<Move>, id: int)
    requires Leads(b, b1, c, c1, ms, id) && Leads(b1, b2, c1, c2, ns, id)
    ensures Leads(b, b2, c, c2, ms + ns, id)
  {
    ExecConcat(b, ms, ns);
    ExecConcat(c, ms, ns);
    LegalConcat(b, ms, ns, id);
  }

  lemma LeadsNowhere(b: Book, c: Book, id: int)
    requires Same(b, c)
    ensures Leads(b, b, c, c, [], id)
  {
  }

  lemma LeadsOne(b: Book, c: Book, m: Move, id: int)
    requires Same(b, c) && Legal(b, m, id)
    ensures Leads(b, Do(b, m), c, Do(c, m), [m], id)
  {
    assert [m][1..] == [];
    assert Exec(Do(b, m), []) == Do(b, m) && Exec(Do(c, m), []) == Do(c, m);
    assert LegalMoves(Do(b, m), [], id);
  }

  // ---- queues that leave the order of ids alone ----

  lemma {:induction false} IdSubSelf(q: seq<Order>)
    ensures IdSub(q, q)
  {
    if q != [] { IdSubSelf(q[1..]); }
  }

  ghost predicate DistinctIds(q: seq<Order>) {
    forall i, j | 0 <= i < j < |q| :: q[i].id != q[j].id
  }

  // Skipping the head of a queue with distinct ids.
  lemma IdSubSkip(r: seq<Order>, q: seq<Order>)
    requires q != [] && DistinctIds(q) && IdSub(r, q[1..])
    ensures IdSub(r, q)
  {
    if r != [] {
      IdSubMember(r, q[1..]);
    }
  }

  lemma {:induction false} IdSubMember(r: seq<Order>, q: seq<Order>)
    requires r != [] && IdSub(r, q)
    ensures exists i | 0 <= i < |q| :: q[i].id == r[0].id
    decreases |q|
  {
    if r[0].id == q[0].id {
    } else {
      IdSubMember(r, q[1..]);
      var i :| 0 <= i < |q[1..]| && q[1..][i].id == r[0].id;
      assert q[i + 1].id == r[0].id;
    }
  }

  lemma {:induction false} IdSubWithout(q: seq<Order>, k: nat)
    requires k < |q| && DistinctIds(q)
    ensures IdSub(RemoveAt(q, k), q)
    decreases |q|
  {
    var r := RemoveAt(q, k);
    if k == 0 {
      assert r == q[1..];
      IdSubSelf(q[1..]);
      IdSubSkip(r, q);
    } else {
      IdSubWithout(q[1..], k - 1);
      assert r[1..] == RemoveAt(q[1..], k - 1);
    }
  }

  lemma {:induction false} IdSubGreedy(t: Order, remain: Qty, q: seq<Order>)
    requires DistinctIds(q)
    ensures IdSub(Greedy(t, remain, q).rest, q)
    decreases |q|
  {
    if remain <= 0 || q == [] {
      IdSubSelf(q);
    } else {
      var h := Step(t, remain, q[0]);
      if h.rest == [] {
        IdSubGreedy(t, h.remain, q[1..]);
        IdSubSkip(Greedy(t, remain, q).rest, q);
      } else {
        assert (h.rest + q[1..])[1..] == q[1..];
        IdSubSelf(q[1..]);
      }
    }
  }

  lemma QueueDistinct(b: Book, s: Side, p: Px)
    requires Wf(b) && OnBook(s)
    ensures DistinctIds(QueueAt(SideOf(b, s), p))
  {
    var q := QueueAt(SideOf(b, s), p);
    if q != [] {
      var i := QueueAtFound(SideOf(b, s), p);
      forall j, k | 0 <= j < k < |q| ensures q[j].id != q[k].id {
        LookupExact(b, s, i, j);
        LookupExact(b, s, i, k);
      }
    }
  }

  lemma {:induction false} IdSubResized(q: seq<Order>, k: nat, v: Qty)
    requires k < |q|
    ensures IdSub(q[k := q[k].(volume := v)], q)
  {
    var r := q[k := q[k].(volume := v)];
    if k == 0 {
      assert r[1..] == q[1..];
      IdSubSelf(q[1..]);
    } else {
      assert r[1..] == q[1..][k - 1 := q[k].(volume := v)];
      IdSubResized(q[1..], k - 1, v);
    }
  }
}
