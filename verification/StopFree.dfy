// A journal without stop orders promotes nothing: the condition a caller can check to have
// every crash recovered from.
module StopFree {
  import opened Orders
  import opened Ladders
  import opened Matching
  import opened Books
  import opened Invariants
  import opened Promotions
  import opened Recovery
  import opened Runs

  ghost predicate NoStops(q: seq<Order>) {
    forall i | 0 <= i < |q| :: !q[i].kind.STOP_LIMIT?
  }

  // No stop order rests or is queued.
  ghost predicate Stopless(b: Book) {
    && b.parked == []
    && (forall p :: NoStops(QueueAt(b.bids, p))) && (forall p :: NoStops(QueueAt(b.asks, p)))
  }

  lemma RequeueStopless(b: Book, s: Side, p: Px, q: seq<Order>)
    requires Stopless(b) && SidesOk(b) && OnBook(s) && NoStops(q)
    ensures Stopless(SetSide(b, s, Put(s, SideOf(b, s), p, q))) && Stopless(Requeue(b, s, p, q))
  {
    forall x ensures NoStops(QueueAt(Put(s, SideOf(b, s), p, q), x)) {
      QueueAtPut(s, SideOf(b, s), p, q, x);
    }
  }

  lemma {:induction false} GreedyStopless(t: Order, remain: Qty, q: seq<Order>)
    requires NoStops(q)
    ensures NoStops(Greedy(t, remain, q).rest)
    decreases q
  {
    if remain > 0 && q != [] {
      var h := Matching.Step(t, remain, q[0]);
      if h.rest == [] { GreedyStopless(t, h.remain, q[1..]); }
    }
  }

  lemma LevelStepStopless(b: Book, t: Order, remain: Qty)
    requires Stopless(b) && SidesOk(b) && OnBook(t.side) && SideOf(b, Opposite(t.side)) != []
    ensures Stopless(LevelStep(b, t, remain).0)
  {
    hide Greedy;
    var s := Opposite(t.side);
    var level := SideOf(b, s)[0];
    QueueAtIndex(s, SideOf(b, s), 0);
    assert NoStops(QueueAt(SideOf(b, s), level.price));
    GreedyStopless(t, remain, level.queue);
    RequeueStopless(b, s, level.price, Greedy(t, remain, level.queue).rest);
  }

  lemma {:induction false} MatchingStopless(b: Book, t: Order, always: bool, remain: Qty)
    requires Stopless(b) && SidesOk(b) && OnBook(t.side)
    ensures Stopless(MatchLevels(b, t, always, remain).0)
    decreases |SideOf(b, Opposite(t.side))|, remain > 0
  {
    hide Stopless, SidesOk, LevelStep;
    var L := SideOf(b, Opposite(t.side));
    if remain > 0 && L != [] && (always || Crosses(t, L[0].price)) {
      LevelStepStopless(b, t, remain);
      LevelStepSides(b, t, remain);
      MatchingStopless(LevelStep(b, t, remain).0, t, always, LevelStep(b, t, remain).1);
    }
  }

  lemma RestStopless(b: Book, o: Order)
    requires Stopless(b) && SidesOk(b) && !o.kind.STOP_LIMIT?
    ensures Stopless(Rest(b, o))
  {
    if OnBook(o.side) {
      var q := QueueAt(SideOf(b, o.side), o.price);
      assert NoStops(q);
      RequeueStopless(b, o.side, o.price, q + [o]);
    }
  }

  lemma SubmitStopless(b: Book, order: Order)
    requires Stopless(b) && SidesOk(b) && !order.kind.STOP_LIMIT?
    ensures Stopless(Submit(b, order).book)
  {
    hide MatchLevels, Rest, CanFullyFill, WouldCross;
    var o := Normalize(order);
    var always := o.kind.MARKET?;
    var (b1, r) := MatchTaker(b, o, always);
    if OnBook(o.side) {
      MatchingStopless(b, o, always, o.volume);
      MatchingIsSided(b, o, always);
    }
    RestStopless(b1, o.(volume := r));
  }

  lemma MatchingIsSided(b: Book, t: Order, always: bool)
    requires SidesOk(b) && OnBook(t.side)
    ensures SidesOk(MatchTaker(b, t, always).0)
  {
    SidesRanked(b);
    MatchingIsMaximal(b, t, always, t.volume);
  }

  lemma CancelStopless(b: Book, id: int)
    requires Stopless(b) && Wf(b)
    ensures Stopless(Cancel(b, id).0)
    ensures Resting(b, id) ==> !Lookup(b, id).value.kind.STOP_LIMIT?
  {
    hide Requeue;
    if Resting(b, id) {
      LookupLocates(b, id);
      var o := Lookup(b, id).value;
      var q := QueueAt(SideOf(b, o.side), o.price);
      assert NoStops(q);
      RequeueStopless(b.(voids := b.voids + [Fill(o, o.volume)]), o.side, o.price, Without(q, id));
    }
  }

  lemma ReduceStopless(b: Book, id: int, v: Qty)
    requires Stopless(b) && Wf(b)
    ensures Stopless(ReduceVolume(b, id, v).0)
  {
    hide Requeue;
    CancelStopless(b, id);
    if v != 0 && Resting(b, id) {
      LookupLocates(b, id);
      var o := Lookup(b, id).value;
      var q := QueueAt(SideOf(b, o.side), o.price);
      assert NoStops(q);
      RequeueStopless(b.(voids := b.voids + [Fill(o, o.volume - v)]), o.side, o.price, Resized(q, id, v));
    }
  }

  // A stop order enters only as one.
  lemma ApplyStopless(b: Book, op: Op)
    requires Stopless(b) && Wf(b) && (op.New? ==> !op.order.kind.STOP_LIMIT?)
    ensures Stopless(Apply(b, op).book)
  {
    hide Stopless, Submit, Books.Cancel, ReduceVolume, Lookup, UniqueIds;
    match op
    case New(o) => SubmitStopless(b, o);
    case CancelOp(id) => CancelStopless(b, id);
    case ModifyOp(id, p, v) =>
      CancelStopless(b, id);
      CancelKeeps(b, id);
      ReduceStopless(b, id, v);
      if Resting(b, id) { SubmitStopless(Cancel(b, id).0, Lookup(b, id).value.(price := p, volume := v)); }
  }

  lemma {:induction false} RunStopless(symbol: string, ops: seq<Op>)
    requires AdmissibleRun(Empty(symbol), ops)
    requires forall k | 0 <= k < |ops| :: ops[k].New? ==> !ops[k].order.kind.STOP_LIMIT?
    ensures Stopless(Run(Empty(symbol), ops))
    decreases |ops|
  {
    hide Apply, Admissible, Uncrossed, UniqueIds;
    if ops != [] {
      var n := |ops| - 1;
      RunPrefix(Empty(symbol), ops);
      RunStopless(symbol, ops[..n]);
      StartIsSound(symbol);
      RunSound(Empty(symbol), ops[..n]);
      ApplyStopless(Run(Empty(symbol), ops[..n]), ops[n]);
    }
  }

  // Without a stop order in the journal nothing is ever promoted, so replay is exact wherever
  // the market stops.
  lemma StopFreeIsRecoverable(symbol: string, ops: seq<Op>, published: bool)
    requires AdmissibleRun(Empty(symbol), ops)
    requires forall k | 0 <= k < |ops| :: ops[k].New? ==> !ops[k].order.kind.STOP_LIMIT?
    ensures Journaled(symbol, ops) && Recoverable(symbol, ops, published)
  {
    hide Run, Admissible, Recoverable;
    forall k | 0 <= k < |ops| ensures Quiet(Run(Empty(symbol), ops[..k]), ops[k]) {
      assert ops[..k + 1][..k] == ops[..k] && ops[..k + 1][k] == ops[k];
      RunTake(Empty(symbol), ops, k);
      StartIsSound(symbol);
      RunSound(Empty(symbol), ops[..k]);
      RunStopless(symbol, ops[..k]);
      StoplessIsQuiet(Run(Empty(symbol), ops[..k]), ops[k]);
    }
    RecoverableIffQuiet(symbol, ops, published);
  }

  lemma StoplessIsQuiet(b: Book, op: Op)
    requires Stopless(b) && Sound(b) && (op.New? ==> !op.order.kind.STOP_LIMIT?)
    ensures Quiet(b, op)
  {
    hide Apply, Harmless;
    ApplyStopless(b, op);
  }
}
