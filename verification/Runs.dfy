// Which runs of the engine keep the representation invariant, and that none leaves the book
// crossed.
module Runs {
  import opened Orders
  import opened Ladders
  import opened Matching
  import opened Books
  import opened Invariants
  import opened Clashes

  // Every bid is below every ask.
  ghost predicate Uncrossed(b: Book) {
    forall p, r :: QueueAt(b.bids, p) != [] && QueueAt(b.asks, r) != [] ==> p < r
  }

  ghost predicate Sound(b: Book) {
    Wf(b) && Uncrossed(b)
  }

  // The same without a word about ids.
  ghost predicate Laddered(b: Book) {
    SidesOk(b) && Uncrossed(b)
  }

  // ... nor about volumes.
  ghost predicate InOrder(b: Book) {
    Ranked(b) && Uncrossed(b)
  }

  lemma LadderedInOrder(b: Book)
    requires Laddered(b)
    ensures InOrder(b)
  {
    SidesRanked(b);
  }

  // b' has levels only where b has.
  ghost predicate NoNewLevels(b: Book, b': Book) {
    && (forall p :: QueueAt(b'.bids, p) != [] ==> QueueAt(b.bids, p) != [])
    && (forall p :: QueueAt(b'.asks, p) != [] ==> QueueAt(b.asks, p) != [])
  }

  lemma RequeueLevels(b: Book, s: Side, p: Px, q: seq<Order>)
    requires Ranked(b) && OnBook(s) && QueueAt(SideOf(b, s), p) != []
    ensures NoNewLevels(b, SetSide(b, s, Put(s, SideOf(b, s), p, q)))
  {
    forall x ensures QueueAt(Put(s, SideOf(b, s), p, q), x) != [] ==> QueueAt(SideOf(b, s), x) != [] {
      QueueAtPut(s, SideOf(b, s), p, q, x);
    }
  }

  // A queue made smaller or changed in place keeps the ladders in order.
  lemma RequeueInOrder(b: Book, s: Side, p: Px, q: seq<Order>)
    requires InOrder(b) && OnBook(s) && QueueAt(SideOf(b, s), p) != [] && Placed(s, p, q)
    ensures InOrder(Requeue(b, s, p, q))
    ensures SidesOk(b) && QueueOk(s, p, q) ==> SidesOk(Requeue(b, s, p, q))
  {
    RequeueLevels(b, s, p, q);
    PutRanked(b, s, p, q);
    if SidesOk(b) && QueueOk(s, p, q) { SidePut(s, SideOf(b, s), p, q); }
  }

  lemma SameInOrder(b: Book, c: Book)
    requires b.bids == c.bids && b.asks == c.asks
    ensures InOrder(b) <==> InOrder(c)
    ensures SidesOk(b) <==> SidesOk(c)
  {
  }

  lemma CancelLadders(b: Book, id: int)
    requires InOrder(b)
    ensures InOrder(Cancel(b, id).0)
    ensures SidesOk(b) ==> SidesOk(Cancel(b, id).0)
  {
    hide InOrder, SidesOk, Requeue;
    if Resting(b, id) {
      InOrderLocates(b, id);
      var o := Lookup(b, id).value;
      var q := QueueAt(SideOf(b, o.side), o.price);
      var b1 := b.(voids := b.voids + [Fill(o, o.volume)]);
      SameInOrder(b, b1);
      RequeueInOrder(b1, o.side, o.price, Without(q, id));
    }
  }

  lemma InOrderLocates(b: Book, id: int)
    requires InOrder(b) && Resting(b, id)
    ensures var o := Lookup(b, id).value; var q := QueueAt(SideOf(b, o.side), o.price);
      && OnBook(o.side) && IndexOf(q, id) < |q| && q[IndexOf(q, id)] == o && Placed(o.side, o.price, q)
      && (SidesOk(b) ==> QueueOk(o.side, o.price, q))
  {
    LadderLocates(b, id);
    var o := Lookup(b, id).value;
    assert Placed(o.side, o.price, QueueAt(SideOf(b, o.side), o.price));
  }

  lemma ReduceLadders(b: Book, id: int, v: Qty)
    requires InOrder(b)
    ensures InOrder(ReduceVolume(b, id, v).0)
    ensures SidesOk(b) && v >= 0 ==> SidesOk(ReduceVolume(b, id, v).0)
  {
    hide InOrder, SidesOk, Requeue;
    CancelLadders(b, id);
    if v != 0 && Resting(b, id) {
      InOrderLocates(b, id);
      var o := Lookup(b, id).value;
      var q := QueueAt(SideOf(b, o.side), o.price);
      var b1 := b.(voids := b.voids + [Fill(o, o.volume - v)]);
      SameInOrder(b, b1);
      RequeueInOrder(b1, o.side, o.price, Resized(q, id, v));
    }
  }

  lemma LevelStepLevels(b: Book, t: Order, remain: Qty)
    requires Ranked(b) && OnBook(t.side) && SideOf(b, Opposite(t.side)) != []
    ensures NoNewLevels(b, LevelStep(b, t, remain).0) && Ranked(LevelStep(b, t, remain).0)
    ensures SidesOk(b) ==> SidesOk(LevelStep(b, t, remain).0)
  {
    var s := Opposite(t.side);
    var level := SideOf(b, s)[0];
    QueueAtIndex(s, SideOf(b, s), 0);
    RequeueLevels(b, s, level.price, Greedy(t, remain, level.queue).rest);
    LevelStepRanked(b, t, remain);
    if SidesOk(b) { LevelStepSides(b, t, remain); }
  }

  // Nothing the taker could still take is left opposite.
  ghost predicate Exhausted(b: Book, t: Order, always: bool)
    requires OnBook(t.side)
  {
    forall p :: QueueAt(SideOf(b, Opposite(t.side)), p) != [] ==> !always && !Crosses(t, p)
  }

  // Matching is maximal: volume is left only when nothing crossing is. It never adds a level.
  lemma {:induction false} MatchingIsMaximal(b: Book, t: Order, always: bool, remain: Qty)
    requires Ranked(b) && OnBook(t.side)
    ensures var r := MatchLevels(b, t, always, remain);
      && Ranked(r.0) && NoNewLevels(b, r.0) && (SidesOk(b) ==> SidesOk(r.0))
      && (r.1 > 0 ==> Exhausted(r.0, t, always))
    decreases |SideOf(b, Opposite(t.side))|, remain > 0
  {
    hide SidesOk;
    var s := Opposite(t.side);
    var L := SideOf(b, s);
    if remain > 0 && L != [] && (always || Crosses(t, L[0].price)) {
      var (b1, r1) := LevelStep(b, t, remain);
      LevelStepLevels(b, t, remain);
      MatchingIsMaximal(b1, t, always, r1);
    } else if remain > 0 && L != [] {
      forall p ensures QueueAt(L, p) != [] ==> !Crosses(t, p) {
        if QueueAt(L, p) != [] {
          var i := QueueAtFound(L, p);
          assert i == 0 || Better(s, L[0].price, L[i].price);
        }
      }
    }
  }

  // Resting a remainder that found nothing more to take keeps bids below asks.
  lemma RestUncrossed(b: Book, o: Order)
    requires InOrder(b) && OnBook(o.side) && Exhausted(b, o, false)
    ensures Uncrossed(Rest(b, o))
  {
    var s := o.side;
    var q := QueueAt(SideOf(b, s), o.price) + [o];
    forall x ensures QueueAt(SideOf(Rest(b, o), s), x) == if x == o.price then q else QueueAt(SideOf(b, s), x) {
      QueueAtPut(s, SideOf(b, s), o.price, q, x);
    }
    var c := Rest(b, o);
    forall p, r | QueueAt(c.bids, p) != [] && QueueAt(c.asks, r) != [] ensures p < r {
      assert QueueAt(SideOf(b, Opposite(s)), if s.BUY? then r else p) != [];
      assert QueueAt(SideOf(c, s), if s.BUY? then p else r) != [];
    }
  }

  // ---- the engine's operations ----

  // A submission keeps the ladders in order and uncrossed whatever its id and whatever volumes
  // rest, and positive if they were.
  lemma HandleLimitLadders(b: Book, o: Order)
    requires InOrder(b)
    ensures InOrder(HandleLimit(b, o).book)
    ensures SidesOk(b) ==> SidesOk(HandleLimit(b, o).book)
  {
    hide MatchLevels, CanFullyFill, WouldCross, SidesOk;
    if OnBook(o.side) { MatchingIsMaximal(b, o, false, o.volume); }
    var (b1, remain) := MatchTaker(b, o, false);
    SameInOrder(b1, Withdraw(b1, o, remain));
    if remain > 0 {
      var o' := o.(volume := remain);
      RestRanked(b1, o');
      if SidesOk(b1) { RestSides(b1, o'); }
      if OnBook(o.side) {
        assert Exhausted(b1, o', false) by { assert forall p :: Crosses(o', p) == Crosses(o, p); }
        RestUncrossed(b1, o');
      }
    }
  }

  lemma HandleMarketLadders(b: Book, o: Order)
    requires InOrder(b)
    ensures InOrder(HandleMarket(b, o).book)
    ensures SidesOk(b) ==> SidesOk(HandleMarket(b, o).book)
  {
    if OnBook(o.side) { MatchingIsMaximal(b, o, true, o.volume); }
  }

  lemma SubmitLadders(b: Book, o: Order)
    requires InOrder(b)
    ensures InOrder(Submit(b, o).book)
    ensures SidesOk(b) ==> SidesOk(Submit(b, o).book)
  {
    hide InOrder, SidesOk, HandleLimit, HandleMarket;
    var n := Normalize(o);
    HandleLimitLadders(b, n);
    HandleMarketLadders(b, n);
    SameInOrder(b, b.(parked := b.parked + [n]));
  }

  lemma HandleLimitSound(b: Book, o: Order)
    requires Sound(b)
    ensures Sound(HandleLimit(b, o).book) <==> !Clash(b, o)
  {
    hide HandleLimit, Clash;
    HandleLimitKeeps(b, o);
    LadderedInOrder(b);
    HandleLimitLadders(b, o);
  }

  // It keeps the whole invariant exactly when it does not clash with a resting id.
  lemma SubmitSound(b: Book, o: Order)
    requires Sound(b)
    ensures Sound(Submit(b, o).book) <==> !SubmitClash(b, o)
    ensures !Resting(b, o.id) ==> Sound(Submit(b, o).book)
  {
    hide Submit, SubmitClash;
    SubmitKeeps(b, o);
    LadderedInOrder(b);
    SubmitLadders(b, o);
  }

  lemma CancelSound(b: Book, id: int)
    requires Sound(b)
    ensures Sound(Cancel(b, id).0) && !Resting(Cancel(b, id).0, id)
  {
    CancelKeeps(b, id);
    LadderedInOrder(b);
    CancelLadders(b, id);
  }

  // Modify needs no fresh id, and keeps the invariant exactly when it does not ask for a
  // negative volume at the resting price: the in-place branch has no lower bound.
  lemma ModifySound(b: Book, id: int, p: Px, v: Qty)
    requires Sound(b)
    ensures Sound(Modify(b, id, p, v).book) <==> ModifyAllowed(b, id, p, v)
  {
    CancelSound(b, id);
    if Resting(b, id) {
      var o := Lookup(b, id).value;
      LookupLocates(b, id);
      if v == 0 {
      } else if p == o.price && v < o.volume {
        ReduceKeeps(b, id, v);
        LadderedInOrder(b);
        ReduceLadders(b, id, v);
      } else {
        SubmitSound(Cancel(b, id).0, o.(price := p, volume := v));
      }
    }
  }

  // What the caller of the engine must respect in a state: all of it can be checked before the
  // call.
  predicate Admissible(b: Book, op: Op) {
    match op
    case New(o) => !SubmitClash(b, o)
    case CancelOp(_) => true
    case ModifyOp(id, p, v) => ModifyAllowed(b, id, p, v)
  }

  ghost predicate AdmissibleRun(b: Book, ops: seq<Op>) {
    forall k | 0 <= k < |ops| :: Admissible(Run(b, ops[..k]), ops[k])
  }

  // One operation keeps the invariant exactly when it is admissible.
  lemma ApplySound(b: Book, op: Op)
    requires Sound(b)
    ensures Sound(Apply(b, op).book) <==> Admissible(b, op)
  {
    hide Submit, Books.Cancel, Books.Modify, SubmitClash, Sound;
    match op
    case New(o) => SubmitSound(b, o);
    case CancelOp(id) => CancelSound(b, id);
    case ModifyOp(id, p, v) => ModifySound(b, id, p, v);
  }

  // A run without its last operation.
  lemma RunPrefix(b: Book, ops: seq<Op>)
    requires AdmissibleRun(b, ops) && ops != []
    ensures AdmissibleRun(b, ops[..|ops| - 1])
    ensures Admissible(Run(b, ops[..|ops| - 1]), ops[|ops| - 1])
  {
    var n := |ops| - 1;
    forall k | 0 <= k < n ensures Admissible(Run(b, ops[..n][..k]), ops[..n][k]) {
      assert ops[..n][..k] == ops[..k];
    }
  }

  // The invariant of the fuzz test, and the spread, over every run.
  lemma {:induction false} RunSound(b: Book, ops: seq<Op>)
    requires Sound(b) && AdmissibleRun(b, ops)
    ensures Sound(Run(b, ops))
    decreases |ops|
  {
    if ops != [] {
      RunPrefix(b, ops);
      RunSound(b, ops[..|ops| - 1]);
      ApplySound(Run(b, ops[..|ops| - 1]), ops[|ops| - 1]);
    }
  }

  // Every state of a run is sound exactly when every operation of it was admissible.
  lemma {:induction false} RunExact(b: Book, ops: seq<Op>)
    requires Sound(b)
    ensures (forall k | 0 <= k <= |ops| :: Sound(Run(b, ops[..k]))) <==> AdmissibleRun(b, ops)
  {
    hide Sound, Apply, Admissible;
    assert ops[..|ops|] == ops;
    if AdmissibleRun(b, ops) {
      forall k | 0 <= k <= |ops| ensures Sound(Run(b, ops[..k])) {
        RunTake(b, ops, k);
        RunSound(b, ops[..k]);
      }
    }
    if forall k | 0 <= k <= |ops| :: Sound(Run(b, ops[..k])) {
      forall k | 0 <= k < |ops| ensures Admissible(Run(b, ops[..k]), ops[k]) {
        assert ops[..k + 1][..k] == ops[..k];
        assert Sound(Run(b, ops[..k + 1])) && Sound(Run(b, ops[..k]));
        ApplySound(Run(b, ops[..k]), ops[k]);
      }
    }
  }

  lemma RunTake(b: Book, ops: seq<Op>, n: nat)
    requires AdmissibleRun(b, ops) && n <= |ops|
    ensures AdmissibleRun(b, ops[..n])
  {
    hide Run, Admissible;
    forall k | 0 <= k < n ensures Admissible(Run(b, ops[..n][..k]), ops[..n][k]) {
      assert ops[..n][..k] == ops[..k];
    }
  }

  // A free id is always admissible.
  lemma FreeIsAdmissible(b: Book, o: Order)
    requires !Resting(b, o.id)
    ensures Admissible(b, New(o))
  {
    FreeNeverClashes(b, Normalize(o));
  }

  // ---- never crossed, whatever the ids and volumes ----

  lemma ApplyLadders(b: Book, op: Op)
    requires InOrder(b)
    ensures InOrder(Apply(b, op).book)
    ensures SidesOk(b) && (op.ModifyOp? ==> ModifyAllowed(b, op.id, op.price, op.volume)) ==> SidesOk(Apply(b, op).book)
  {
    hide InOrder, SidesOk, Submit, Books.Cancel, ReduceVolume;
    match op
    case New(o) => SubmitLadders(b, o);
    case CancelOp(id) => CancelLadders(b, id);
    case ModifyOp(id, p, v) =>
      CancelLadders(b, id);
      ReduceLadders(b, id, v);
      if Resting(b, id) { SubmitLadders(Cancel(b, id).0, Lookup(b, id).value.(price := p, volume := v)); }
  }

  lemma {:induction false} RunLadders(b: Book, ops: seq<Op>)
    requires InOrder(b)
    ensures InOrder(Run(b, ops))
    decreases |ops|
  {
    hide InOrder, Apply;
    if ops != [] {
      RunLadders(b, ops[..|ops| - 1]);
      ApplyLadders(Run(b, ops[..|ops| - 1]), ops[|ops| - 1]);
    }
  }

  // The best bid is strictly below the best ask after every run.
  lemma NeverCrossed(symbol: string, ops: seq<Op>)
    ensures var b := Run(Empty(symbol), ops);
      b.bids != [] && b.asks != [] ==> b.bids[0].price < b.asks[0].price
  {
    hide Run;
    RunLadders(Empty(symbol), ops);
    Spread(Run(Empty(symbol), ops));
  }

  lemma Spread(b: Book)
    requires InOrder(b)
    ensures b.bids != [] && b.asks != [] ==> b.bids[0].price < b.asks[0].price
  {
    if b.bids != [] && b.asks != [] {
      QueueAtIndex(BUY, b.bids, 0);
      QueueAtIndex(SELL, b.asks, 0);
    }
  }
}
