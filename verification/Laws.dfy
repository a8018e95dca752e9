// Laws between operations: what a cancel undoes, what modify amounts to, and what a refusal
// leaves behind.
module Laws {
  import opened Orders
  import opened Ladders
  import opened Matching
  import opened Books
  import opened Clashes
  import opened Invariants
  import opened Moves
  import opened Plans
  import opened Priority
  import opened Runs
  import opened Snapshot
  import opened Tapes
  import opened TimeInForce
  import Recovery

  // Cancelling an order just rested restores both ladders and every queue, whether or not its
  // level was new. Only the counter (two published deltas) and the withdrawal remain.
  lemma AddThenCancel(b: Book, o: Order)
    requires Wf(b) && OnBook(o.side) && o.volume > 0 && !Resting(b, o.id)
    ensures var (c, e) := Cancel(Rest(b, o), o.id);
      && e == NoError
      && c.bids == b.bids && c.asks == b.asks && c.parked == b.parked
      && c.voids == b.voids + [Fill(o, o.volume)]
      && c.seqNo == b.seqNo + if b.sink then 2 else 0
  {
    var s, L := o.side, SideOf(b, o.side);
    var q := QueueAt(L, o.price);
    var r := Rest(b, o);
    RestKeeps(b, o);
    QueueAtPut(s, L, o.price, q + [o], o.price);
    RestingIffCounted(b, o.id);
    RestingIffCounted(r, o.id);
    var R := SideOf(r, s);
    var i := QueueAtFound(R, o.price);
    assert R[i].queue[|q|] == o;
    LookupExact(r, s, i, |q|);
    assert Without(q + [o], o.id) == q;
    PutPut(s, L, o.price, q + [o], q);
    PutSame(s, L, o.price);
  }

  // The in-place branch: one volume and its level's total change, nothing moves, no match.
  lemma ModifyInPlace(b: Book, id: int, v: Qty)
    requires Wf(b) && Resting(b, id) && 0 < v < Lookup(b, id).value.volume
    ensures var o := Lookup(b, id).value; var r := Modify(b, id, o.price, v);
      var q := QueueOf(b, o.side, o.price); var k := IndexOf(q, id);
      && r.result == Result([], true, "")
      && k < |q| && QueueOf(r.book, o.side, o.price) == q[k := o.(volume := v)]
      && SumQ(QueueOf(r.book, o.side, o.price), Volumes()) == SumQ(q, Volumes()) - (o.volume - v)
      && OnBook(o.side) && SideOf(r.book, Opposite(o.side)) == SideOf(b, Opposite(o.side))
      && forall p | p != o.price :: QueueOf(r.book, o.side, p) == QueueOf(b, o.side, p)
  {
    ReducedQueue(b, id, v);
    LookupLocates(b, id);
    var o := Lookup(b, id).value;
    var q := QueueOf(b, o.side, o.price);
    var k := IndexOf(q, id);
    SumUpdate(q, k, o.(volume := v), Volumes());
    forall p ensures QueueOf(Modify(b, id, o.price, v).book, o.side, p) ==
      if p == o.price then q[k := o.(volume := v)] else QueueOf(b, o.side, p)
    {
      QueueAtPut(o.side, SideOf(b, o.side), o.price, q[k := o.(volume := v)], p);
    }
  }

  // Every other modify of a resting order is a cancel, or a cancel followed by an ordinary
  // submission of the saved order. What this adds to the code: the cancel never fails, so its
  // error branch is dead, and it frees the id, so the resubmission never clashes.
  lemma ModifyOtherwise(b: Book, id: int, p: Px, v: Qty)
    requires Wf(b) && Resting(b, id)
    requires v == 0 || p != Lookup(b, id).value.price || v >= Lookup(b, id).value.volume
    ensures var c := Cancel(b, id).0; var o := Lookup(b, id).value;
      && Wf(c) && !Resting(c, id) && !SubmitClash(c, o.(price := p, volume := v))
      && Modify(b, id, p, v) == if v == 0 then Outcome(c, Result([], true, ""))
                                else Submit(c, o.(price := p, volume := v))
  {
    CancelKeeps(b, id);
    LookupLocates(b, id);
    SubmitKeeps(Cancel(b, id).0, Lookup(b, id).value.(price := p, volume := v));
  }

  // ---- refusals ----

  // What the guards of a submission say, on the book before it.
  predicate Refuses(b: Book, order: Order) {
    var o := Normalize(order);
    || o.kind.OtherType?
    || ((o.kind.LIMIT? || (o.kind.STOP_LIMIT? && IsTriggered(o, 0))) &&
        ((o.tif.PostOnly? && WouldCross(b, o)) || (o.tif.FOK? && !CanFullyFill(b, o))))
  }

  // A submission is refused exactly by its guards, and then changes nothing at all.
  lemma RefusedChangesNothing(b: Book, o: Order)
    ensures Submit(b, o).result.accepted <==> !Refuses(b, o)
    ensures Refuses(b, o) ==> Submit(b, o).book == b && Submit(b, o).result.matches == []
  {
  }

  // A refused submission is in the journal all the same: it is journaled before it is tried.
  lemma RefusedIsJournaled(m: Recovery.Market, o: Order, symbol: string, published: bool)
    requires m.pending.None? && Validates(o) && Refuses(m.book, o)
    ensures var a := Recovery.Next(m, Recovery.Append(New(o)), symbol, published);
      var c := Recovery.Next(a, Recovery.Complete, symbol, published);
      c.journal == m.journal + [New(o)] && c.book == m.book
  {
    RefusedChangesNothing(m.book, o);
  }

  // The guards look at the side opposite to the order.
  lemma GuardsLookOpposite(b: Book, c: Book, o: Order)
    requires OnBook(o.side) && SideOf(b, Opposite(o.side)) == SideOf(c, Opposite(o.side))
    ensures Refuses(b, o) == Refuses(c, o)
  {
  }

  // A modify is refused exactly when the order is unknown or its resubmission fails a guard,
  // which the book before the modify decides: the cancel in between leaves the opposite side
  // alone. An unknown order changes nothing; a resting one is gone.
  lemma RefusedModify(b: Book, id: int, p: Px, v: Qty)
    requires Wf(b)
    ensures !Modify(b, id, p, v).result.accepted <==>
      !Resting(b, id) ||
      (v != 0 && !(p == Lookup(b, id).value.price && v < Lookup(b, id).value.volume) &&
       Refuses(b, Lookup(b, id).value.(price := p, volume := v)))
    ensures !Modify(b, id, p, v).result.accepted ==>
      (Modify(b, id, p, v).book == b <==> !Resting(b, id)) &&
      (Resting(b, id) ==> Modify(b, id, p, v).book == Cancel(b, id).0)
  {
    hide Refuses, Submit;
    if Resting(b, id) {
      var o := Lookup(b, id).value;
      var o' := o.(price := p, volume := v);
      CancelKeeps(b, id);
      LookupLocates(b, id);
      GuardsLookOpposite(b, Cancel(b, id).0, o');
      RefusedChangesNothing(Cancel(b, id).0, o');
    }
  }

  // A modify to the price and volume that an order has is no increase, but is submitted again all
  // the same: the order goes to the back of its queue.
  lemma SameModifyLosesPlace(b: Book, id: int) returns (k: nat)
    requires Sound(b) && Resting(b, id)
    requires var o := Lookup(b, id).value; o.kind == LIMIT && o.tif != IOC && o.tif != FOK && Normalize(o) == o
    ensures var o := Lookup(b, id).value; var q := QueueOf(b, o.side, o.price);
      var r := Modify(b, id, o.price, o.volume);
      && r.result == Result([], true, "") && k < |q| && q[k] == o
      && QueueOf(r.book, o.side, o.price) == q[..k] + q[k + 1..] + [o]
  {
    hide Put, Requeue, Wf, Uncrossed, Books.Cancel, Lookup;
    CancelSucceeds(b, id);
    var o, c := Lookup(b, id).value, Cancel(b, id).0;
    k := CancelTakesOut(b, id);
    CancelKeeps(b, id);
    LookupLocates(b, id);
    MeetsNothing(b, o);
    assert MatchTaker(c, o, false) == (c, o.volume) && !WouldCross(c, o) by { CancelLeavesOpposite(b, id); }
    TradesAfter(c, c, []);
    RestsLast(c, o);
  }

  lemma CancelLeavesOpposite(b: Book, id: int)
    requires Wf(b) && Resting(b, id)
    ensures var o := Lookup(b, id).value;
      OnBook(o.side) && SideOf(Cancel(b, id).0, Opposite(o.side)) == SideOf(b, Opposite(o.side))
  {
    LookupLocates(b, id);
  }

  // An order that rests in a sound book could take nothing.
  lemma MeetsNothing(b: Book, o: Order)
    requires Sound(b) && Resting(b, o.id) && Lookup(b, o.id).value == o && OnBook(o.side)
    ensures !WouldCross(b, o)
  {
    LookupLocates(b, o.id);
    QueueAtIndexes(b);
  }

  // Exactly the order leaves its queue; every other queue stays.
  lemma CancelTakesOut(b: Book, id: int) returns (k: nat)
    requires Wf(b) && Resting(b, id)
    ensures var o := Lookup(b, id).value; var q := QueueOf(b, o.side, o.price);
      && k < |q| && q[k] == o && o.id == id
      && QueueOf(Cancel(b, id).0, o.side, o.price) == q[..k] + q[k + 1..]
      && forall s, p | OnBook(s) && (s != o.side || p != o.price) :: QueueOf(Cancel(b, id).0, s, p) == QueueOf(b, s, p)
  {
    LookupLocates(b, id);
    var o := Lookup(b, id).value;
    var L := SideOf(b, o.side);
    var q := QueueAt(L, o.price);
    k := IndexOf(q, id);
    forall p ensures QueueAt(Put(o.side, L, o.price, q[..k] + q[k + 1..]), p) ==
      if p == o.price then q[..k] + q[k + 1..] else QueueAt(L, p)
    {
      QueueAtPut(o.side, L, o.price, q[..k] + q[k + 1..], p);
    }
  }

  // ---- what a run depends on ----

  // A run looks at the ladders only: not at the counter, the tape, the sink or the history.
  lemma {:induction false} RunSame(b: Book, c: Book, ops: seq<Op>)
    requires Same(b, c) && Sound(b) && AdmissibleRun(b, ops)
    ensures AdmissibleRun(c, ops) && Same(Run(b, ops), Run(c, ops))
    decreases |ops|
  {
    hide Apply, Sound, Leads;
    if ops != [] {
      var n := |ops| - 1;
      RunPrefix(b, ops);
      RunSame(b, c, ops[..n]);
      RunSound(b, ops[..n]);
      SameAdmits(Run(b, ops[..n]), Run(c, ops[..n]), ops[n]);
      RunExtends(c, ops);
    }
  }

  lemma RunExtends(b: Book, ops: seq<Op>)
    requires ops != [] && AdmissibleRun(b, ops[..|ops| - 1])
    requires Admissible(Run(b, ops[..|ops| - 1]), ops[|ops| - 1])
    ensures AdmissibleRun(b, ops)
  {
    hide Run, Admissible;
    var n := |ops| - 1;
    forall k | 0 <= k < |ops| ensures Admissible(Run(b, ops[..k]), ops[k]) {
      if k < n {
        assert ops[..n][..k] == ops[..k] && ops[..n][k] == ops[k];
        assert Admissible(Run(b, ops[..n][..k]), ops[..n][k]);
      }
    }
  }

  lemma SameAdmits(b: Book, c: Book, op: Op)
    requires Same(b, c) && Sound(b) && Admissible(b, op)
    ensures Admissible(c, op) && Same(Apply(b, op).book, Apply(c, op).book)
  {
    assert forall id :: Lookup(b, id) == Lookup(c, id);
    var _ := ApplyLeads(b, c, op, Subject(op));
  }

  // A book read back from its snapshot goes on exactly as the one that was written.
  lemma SnapshotIsTransparent(b: Book, ops: seq<Op>)
    requires Sound(b) && AllMachine(b) && AllPrintable(b) && AdmissibleRun(b, ops)
    ensures var c := BookFromProto(BookToProto(b));
      c.Some? && AdmissibleRun(c.value, ops) && Same(Run(b, ops), Run(c.value, ops))
  {
    BookRoundTrip(b);
    RunSame(b, Restored(b), ops);
  }

  // A start from a snapshot taken after i records and then the whole journal: every book on the
  // way is sound exactly when every record is admissible where it is applied.
  lemma SnapshotReplayExact(symbol: string, j: seq<Op>, i: nat)
    requires AdmissibleRun(Empty(symbol), j) && i <= |j|
    ensures var b := Restored(Run(Empty(symbol), j[..i]));
      (forall k | 0 <= k <= |j| :: Sound(Run(b, j[..k]))) <==> AdmissibleRun(b, j)
  {
    hide Run, AdmissibleRun;
    var b := Run(Empty(symbol), j[..i]);
    EmptyWf(symbol);
    RunTake(Empty(symbol), j, i);
    RunSound(Empty(symbol), j[..i]);
    SameLadders(b, Restored(b));
    RunExact(Restored(b), j);
  }

  // Sound is not the same. Such starts give the ladders of the journal, however it goes on after
  // the snapshot, exactly when replaying the records up to the snapshot over it leaves its ladders
  // alone; a snapshot with empty ladders is enough.
  lemma SnapshotReplaySame(symbol: string, j: seq<Op>)
    requires AdmissibleRun(Empty(symbol), j)
    ensures var b := Restored(Run(Empty(symbol), j));
      (forall rest | AdmissibleRun(Empty(symbol), j + rest) :: Same(Run(b, j + rest), Run(Empty(symbol), j + rest)))
      <==> Same(Run(b, j), b)
    ensures var b := Restored(Run(Empty(symbol), j)); b.bids == [] && b.asks == [] ==> Same(Run(b, j), b)
  {
    hide Run, AdmissibleRun, Sound;
    var e, c := Empty(symbol), Run(Empty(symbol), j);
    var b := Restored(c);
    EmptySound(symbol);
    RunSound(e, j);
    assert j + [] == j;
    if Same(Run(b, j), b) {
      forall rest | AdmissibleRun(e, j + rest) ensures Same(Run(b, j + rest), Run(e, j + rest)) {
        RunConcat(b, j, rest);
        RunConcat(e, j, rest);
        AdmissibleAfter(e, j, rest);
        RunSame(c, Run(b, j), rest);
      }
    }
    if b.bids == [] && b.asks == [] { RunSame(e, b, j); }
  }

  lemma EmptySound(symbol: string)
    ensures Sound(Empty(symbol))
  {
    EmptyWf(symbol);
  }

  lemma {:induction false} RunConcat(b: Book, j: seq<Op>, rest: seq<Op>)
    ensures Run(b, j + rest) == Run(Run(b, j), rest)
    decreases |rest|
  {
    hide Apply;
    if rest == [] {
      assert j + rest == j;
    } else {
      var n := |rest| - 1;
      assert (j + rest)[..|j + rest| - 1] == j + rest[..n];
      RunConcat(b, j, rest[..n]);
    }
  }

  lemma AdmissibleAfter(b: Book, j: seq<Op>, rest: seq<Op>)
    requires AdmissibleRun(b, j + rest)
    ensures AdmissibleRun(Run(b, j), rest)
  {
    hide Run, Admissible;
    forall k | 0 <= k < |rest| ensures Admissible(Run(Run(b, j), rest[..k]), rest[k]) {
      assert (j + rest)[..|j| + k] == j + rest[..k] && (j + rest)[|j| + k] == rest[k];
      RunConcat(b, j, rest[..k]);
    }
  }

  // The record of an order that still rests as it was submitted always clashes.
  lemma ReplayedTwice(b: Book, o: Order)
    requires Sound(b) && Lookup(b, o.id) == Some(o)
    requires o.kind.LIMIT? && Normalize(o) == o && !o.tif.IOC? && !o.tif.FOK?
    ensures SubmitClash(b, o) && !Wf(Apply(b, New(o)).book)
  {
    LookupLocates(b, o.id);
    QueueAtIndexes(b);
    MeetsNothing(b, o);
    assert Reachable(b, o) == [];
    assert Greedy(o, o.volume, []).remain == o.volume;
    SubmitKeeps(b, o);
  }

  lemma QueueAtIndexes(b: Book)
    requires Wf(b)
    ensures b.bids != [] ==> QueueAt(b.bids, b.bids[0].price) != []
    ensures b.asks != [] ==> QueueAt(b.asks, b.asks[0].price) != []
  {
    if b.bids != [] { QueueAtIndex(BUY, b.bids, 0); }
    if b.asks != [] { QueueAtIndex(SELL, b.asks, 0); }
  }
}
