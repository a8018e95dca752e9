// Per-order ledger over whole runs: what was submitted under an id has been filled, rests, is
// queued, or was withdrawn.
module Ledger {
  import opened Orders
  import opened Ladders
  import opened Matching
  import opened Books
  import opened Invariants
  import opened Tapes
  import opened Runs
  import opened Moves
  import opened Plans

  function TradedIn(ms: seq<Match>, id: int): int {
    if ms == [] then 0
    else (if ms[0].buyId == id then ms[0].volume else 0) + (if ms[0].sellId == id then ms[0].volume else 0)
         + TradedIn(ms[1..], id)
  }

  // Volume traded under an id, on either side of a match.
  function Filled(b: Book, id: int): int {
    TradedIn(TradesOf(b.tape), id)
  }

  function RestingVolume(b: Book, id: int): int {
    SumL(b.bids, VolumeOf(id)) + SumL(b.asks, VolumeOf(id))
  }

  function PositiveOf(id: int): Order -> int {
    (o: Order) => if o.id == id then Positive(o.volume) else 0
  }

  function Queued(b: Book, id: int): int {
    SumQ(b.parked, PositiveOf(id))
  }

  function Withdrawn(b: Book, id: int): int {
    FillVol(b.voids, id)
  }

  function Balance(b: Book, id: int): int {
    Filled(b, id) + RestingVolume(b, id) + Queued(b, id) + Withdrawn(b, id)
  }

  // Volume an operation newly puts under an id: an accepted order, or the resubmitted half of a
  // modify that is not an in-place reduction.
  function Credit(b: Book, op: Op, id: int): int {
    match op
    case New(o) => if o.id == id && Submit(b, o).result.accepted then Positive(o.volume) else 0
    case CancelOp(_) => 0
    case ModifyOp(x, p, v) =>
      if x != id || !Resting(b, x) || v == 0 || (p == Lookup(b, x).value.price && v < Lookup(b, x).value.volume) then 0
      else if Submit(Cancel(b, x).0, Lookup(b, x).value.(price := p, volume := v)).result.accepted then Positive(v)
      else 0
  }

  function Credits(b: Book, ops: seq<Op>, id: int): int
    decreases |ops|
  {
    if ops == [] then 0
    else
      var n := |ops| - 1;
      Credits(b, ops[..n], id) + Credit(Run(b, ops[..n]), ops[n], id)
  }

  // ---- the parts ----

  lemma {:induction false} TradedConcat(a: seq<Match>, b: seq<Match>, id: int)
    ensures TradedIn(a + b, id) == TradedIn(a, id) + TradedIn(b, id)
  {
    if a == [] {
      assert a + b == b;
    } else {
      assert (a + b)[1..] == a[1..] + b;
      TradedConcat(a[1..], b, id);
    }
  }

  lemma FilledAfter(b: Book, e: Event, id: int)
    ensures TradedIn(TradesOf(b.tape + [e]), id) ==
      Filled(b, id) + if e.Trade? then TradedIn([e.m], id) else 0
  {
    TapeSnoc(b.tape, e);
    if e.Trade? {
      TradedConcat(TradesOf(b.tape), [e.m], id);
    } else {
      assert TradesOf(b.tape) + [] == TradesOf(b.tape);
    }
  }

  lemma {:induction false} RecordFills(b: Book, t: Order, f: seq<Fill>, price: Px, id: int)
    ensures Filled(Record(b, t, f, price), id) ==
      Filled(b, id) + FillVol(f, id) + (if t.id == id then FillTotal(f) else 0)
    decreases f
  {
    if f != [] {
      var m := MakeMatch(t, f[0].order.id, price, f[0].qty, b.seqNo + 1);
      var b1 := b.(seqNo := b.seqNo + 1, tape := b.tape + [Trade(m)]);
      FilledAfter(b, Trade(m), id);
      assert [m][1..] == [];
      RecordFills(b1, t, f[1..], price, id);
    }
  }

  lemma EmitBalance(b: Book, s: Side, p: Px, qty: Qty, id: int)
    ensures Balance(Emit(b, s, p, qty), id) == Balance(b, id)
  {
    if b.sink { FilledAfter(b, Emit(b, s, p, qty).tape[|b.tape|], id); }
  }

  lemma RequeueBalance(b: Book, s: Side, p: Px, q: seq<Order>, id: int)
    requires OnBook(s) && Sorted(s, SideOf(b, s))
    ensures Balance(Requeue(b, s, p, q), id) ==
      Balance(b, id) + SumQ(q, VolumeOf(id)) - SumQ(QueueAt(SideOf(b, s), p), VolumeOf(id))
  {
    SumPut(s, SideOf(b, s), p, q, VolumeOf(id));
    EmitBalance(SetSide(b, s, Put(s, SideOf(b, s), p, q)), s, p, SumQ(q, Volumes()), id);
  }

  lemma VoidBalance(b: Book, f: seq<Fill>, id: int)
    ensures Balance(b.(voids := b.voids + f), id) == Balance(b, id) + FillVol(f, id)
  {
    FillVolConcat(b.voids, f, id);
  }

  lemma WithdrawBalance(b: Book, o: Order, qty: Qty, id: int)
    ensures Balance(Withdraw(b, o, qty), id) == Balance(b, id) + if o.id == id then Positive(qty) else 0
  {
    VoidBalance(b, [Fill(o, qty)], id);
    assert [Fill(o, qty)][1..] == [];
  }

  // ---- matching ----

  // The taker's remainder counts as its own.
  lemma LevelStepBalance(b: Book, t: Order, remain: Qty, id: int)
    requires Wf(b) && OnBook(t.side) && SideOf(b, Opposite(t.side)) != []
    ensures var (b1, r) := LevelStep(b, t, remain);
      Balance(b1, id) + (if t.id == id then r else 0) == Balance(b, id) + (if t.id == id then remain else 0)
  {
    hide Greedy, Wf, Record, TradesOf, TradedIn, FillVol;
    var s := Opposite(t.side);
    var L := SideOf(b, s);
    var level := L[0];
    var h := Greedy(t, remain, level.queue);
    var b1 := Record(b, t, h.fills, level.price);
    QueueAtIndexWf(b, s);
    GreedyConserves(t, remain, level.queue, id);
    RecordFills(b, t, h.fills, level.price, id);
    FillVolConcat(b.voids, h.cuts, id);
    SumPut(s, L, level.price, h.rest, VolumeOf(id));
    var b2 := SetSide(b1.(voids := b.voids + h.cuts), s, Put(s, L, level.price, h.rest));
    EmitBalance(b2, s, level.price, SumQ(h.rest, Volumes()), id);
  }

  lemma QueueAtIndexWf(b: Book, s: Side)
    requires Wf(b) && OnBook(s) && SideOf(b, s) != []
    ensures Sorted(s, SideOf(b, s)) && QueueAt(SideOf(b, s), SideOf(b, s)[0].price) == SideOf(b, s)[0].queue
  {
    QueueAtIndex(s, SideOf(b, s), 0);
  }

  lemma {:induction false} MatchLevelsBalance(b: Book, t: Order, always: bool, remain: Qty, id: int)
    requires Wf(b) && OnBook(t.side)
    ensures var (b1, r) := MatchLevels(b, t, always, remain);
      Balance(b1, id) + (if t.id == id then r else 0) == Balance(b, id) + (if t.id == id then remain else 0)
    decreases |SideOf(b, Opposite(t.side))|, remain > 0
  {
    hide Wf, Balance, LevelStep;
    var L := SideOf(b, Opposite(t.side));
    if remain > 0 && L != [] && (always || Crosses(t, L[0].price)) {
      var (b1, r1) := LevelStep(b, t, remain);
      LevelStepBalance(b, t, remain, id);
      LevelStepKeeps(b, t, remain);
      MatchLevelsBalance(b1, t, always, r1, id);
    }
  }

  lemma MatchTakerBalance(b: Book, t: Order, always: bool, id: int)
    requires Wf(b)
    ensures var (b1, r) := MatchTaker(b, t, always);
      && Balance(b1, id) + (if t.id == id then r else 0) == Balance(b, id) + (if t.id == id then t.volume else 0)
      && (t.volume <= 0 ==> r == t.volume)
      && (t.volume >= 0 ==> r >= 0)
  {
    if OnBook(t.side) {
      MatchLevelsBalance(b, t, always, t.volume, id);
      RemainderBounds(b, t, always, t.volume);
    }
  }

  lemma {:induction false} RemainderBounds(b: Book, t: Order, always: bool, remain: Qty)
    requires Wf(b) && OnBook(t.side)
    ensures remain <= 0 ==> MatchLevels(b, t, always, remain).1 == remain
    ensures remain >= 0 ==> MatchLevels(b, t, always, remain).1 >= 0
    decreases |SideOf(b, Opposite(t.side))|, remain > 0
  {
    hide Wf, LevelStep;
    var L := SideOf(b, Opposite(t.side));
    if remain > 0 && L != [] && (always || Crosses(t, L[0].price)) {
      LevelStepKeeps(b, t, remain);
      LevelStepRemainder(b, t, remain);
      RemainderBounds(LevelStep(b, t, remain).0, t, always, LevelStep(b, t, remain).1);
    }
  }

  lemma LevelStepRemainder(b: Book, t: Order, remain: Qty)
    requires Wf(b) && OnBook(t.side) && SideOf(b, Opposite(t.side)) != [] && remain >= 0
    ensures LevelStep(b, t, remain).1 >= 0
  {
    FrontPositive(b, Opposite(t.side));
    GreedyTakesPrefix(t, remain, SideOf(b, Opposite(t.side))[0].queue);
  }

  // ---- operations ----

  lemma RestBalance(b: Book, o: Order, id: int)
    requires Wf(b) && o.volume > 0
    ensures Balance(Rest(b, o), id) == Balance(b, id) + if o.id == id then o.volume else 0
  {
    if OnBook(o.side) {
      var q := QueueAt(SideOf(b, o.side), o.price);
      SumConcat(q, [o], VolumeOf(id));
      assert [o][1..] == [];
      RequeueBalance(b, o.side, o.price, q + [o], id);
    } else {
      WithdrawBalance(b, o, o.volume, id);
    }
  }

  lemma HandleLimitBalance(b: Book, o: Order, id: int)
    requires Wf(b)
    ensures var r := HandleLimit(b, o);
      Balance(r.book, id) == Balance(b, id) + if o.id == id && r.result.accepted then Positive(o.volume) else 0
  {
    hide Wf, Balance, MatchTaker, Withdraw, Rest, CanFullyFill, WouldCross;
    MatchTakerBalance(b, o, false, id);
    MatchTakerKeeps(b, o, false);
    var (b1, r) := MatchTaker(b, o, false);
    WithdrawBalance(b1, o, r, id);
    if r > 0 { RestBalance(b1, o.(volume := r), id); }
  }

  lemma HandleMarketBalance(b: Book, o: Order, id: int)
    requires Wf(b)
    ensures Balance(HandleMarket(b, o).book, id) == Balance(b, id) + if o.id == id then Positive(o.volume) else 0
  {
    hide Wf, Balance, MatchTaker, Withdraw;
    MatchTakerBalance(b, o, true, id);
    var (b1, r) := MatchTaker(b, o, true);
    WithdrawBalance(b1, o, r, id);
  }

  lemma SubmitBalance(b: Book, order: Order, id: int)
    requires Wf(b)
    ensures var r := Submit(b, order);
      Balance(r.book, id) == Balance(b, id) + if order.id == id && r.result.accepted then Positive(order.volume) else 0
  {
    var o := Normalize(order);
    hide Wf, HandleLimit, HandleMarket, TradesOf, TradedIn;
    HandleLimitBalance(b, o, id);
    HandleMarketBalance(b, o, id);
    HandleMarketAccepts(b, o);
    SumConcat(b.parked, [o], PositiveOf(id));
    assert [o][1..] == [];
  }

  lemma HandleMarketAccepts(b: Book, o: Order)
    ensures HandleMarket(b, o).result.accepted
  {
  }

  // A cancel moves what rests to what is withdrawn.
  lemma CancelBalance(b: Book, x: int, id: int)
    requires Wf(b)
    ensures Balance(Cancel(b, x).0, id) == Balance(b, id)
  {
    if Resting(b, x) {
      LookupLocates(b, x);
      var o := Lookup(b, x).value;
      var q := QueueAt(SideOf(b, o.side), o.price);
      VoidBalance(b, [Fill(o, o.volume)], id);
      assert [Fill(o, o.volume)][1..] == [];
      SumRemove(q, IndexOf(q, x), VolumeOf(id));
      RequeueBalance(b.(voids := b.voids + [Fill(o, o.volume)]), o.side, o.price, Without(q, x), id);
    }
  }

  lemma ReduceBalance(b: Book, x: int, v: Qty, id: int)
    requires Wf(b)
    ensures Balance(ReduceVolume(b, x, v).0, id) == Balance(b, id)
  {
    hide Balance, Books.Cancel, SumQ, Put, QueueOk, UniqueIds, Resized, LookupIn;
    if v == 0 {
      CancelBalance(b, x, id);
    } else if Resting(b, x) && v < Lookup(b, x).value.volume {
      ReducedQueue(b, x, v);
      LookupLocates(b, x);
      var o := Lookup(b, x).value;
      var q := QueueAt(SideOf(b, o.side), o.price);
      VoidBalance(b, [Fill(o, o.volume - v)], id);
      assert [Fill(o, o.volume - v)][1..] == [];
      SumUpdate(q, IndexOf(q, x), o.(volume := v), VolumeOf(id));
      RequeueBalance(b.(voids := b.voids + [Fill(o, o.volume - v)]), o.side, o.price, Resized(q, x, v), id);
    }
  }

  lemma ApplyBalance(b: Book, op: Op, id: int)
    requires Wf(b)
    ensures Balance(Apply(b, op).book, id) == Balance(b, id) + Credit(b, op, id)
  {
    hide Wf, Balance, Submit, Books.Cancel, ReduceVolume;
    match op
    case New(o) => SubmitBalance(b, o, id);
    case CancelOp(x) => CancelBalance(b, x, id);
    case ModifyOp(x, p, v) =>
      CancelBalance(b, x, id);
      ReduceBalance(b, x, v, id);
      if Resting(b, x) {
        LookupLocates(b, x);
        CancelKeeps(b, x);
        CancelIsDone(b, x);
        SubmitBalance(Cancel(b, x).0, Lookup(b, x).value.(price := p, volume := v), id);
      }
  }

  lemma CancelIsDone(b: Book, x: int)
    requires Resting(b, x)
    ensures Cancel(b, x).1 == NoError
  {
  }

  // Conservation over every run.
  lemma {:induction false} RunBalance(b: Book, ops: seq<Op>, id: int)
    requires Sound(b) && AdmissibleRun(b, ops)
    ensures Balance(Run(b, ops), id) == Balance(b, id) + Credits(b, ops, id)
    decreases |ops|
  {
    hide Balance, Sound, Credit, Apply;
    if ops != [] {
      var n := |ops| - 1;
      RunPrefix(b, ops);
      RunBalance(b, ops[..n], id);
      RunSound(b, ops[..n]);
      SoundIsWf(Run(b, ops[..n]));
      ApplyBalance(Run(b, ops[..n]), ops[n], id);
    }
  }

  lemma SoundIsWf(b: Book)
    requires Sound(b)
    ensures Wf(b)
  {
  }

  // ---- no order is overfilled ----

  ghost predicate VoidsOk(b: Book) {
    NoNegative(b.voids)
  }

  lemma {:induction false} ExecVoids(b: Book, ms: seq<Move>, tag: int)
    requires VoidsOk(b) && LegalMoves(b, ms, tag)
    ensures VoidsOk(Exec(b, ms))
    decreases |ms|
  {
    if ms != [] { ExecVoids(Do(b, ms[0]), ms[1..], tag); }
  }

  lemma {:induction false} RunVoids(b: Book, ops: seq<Op>)
    requires Sound(b) && VoidsOk(b) && AdmissibleRun(b, ops)
    ensures VoidsOk(Run(b, ops))
    decreases |ops|
  {
    if ops != [] {
      var n := |ops| - 1;
      var b1 := Run(b, ops[..n]);
      RunPrefix(b, ops);
      RunVoids(b, ops[..n]);
      RunSound(b, ops[..n]);
      var ms := ApplyLeads(b1, b1, ops[n], Subject(ops[n]));
      ExecVoids(b1, ms, Subject(ops[n]));
    }
  }

  lemma {:induction false} FillVolNonNegative(f: seq<Fill>, id: int)
    requires NoNegative(f)
    ensures FillVol(f, id) >= 0
  {
    if f != [] { FillVolNonNegative(f[1..], id); }
  }

  lemma {:induction false} QueueVolume(q: seq<Order>, id: int)
    ensures AllPositive(q) ==> SumQ(q, VolumeOf(id)) >= 0
    ensures SumQ(q, PositiveOf(id)) >= 0
  {
    if q != [] {
      QueueVolume(q[1..], id);
      if AllPositive(q) { assert AllPositive(q[1..]); }
    }
  }

  lemma {:induction false} LadderVolume(L: Ladder, id: int)
    requires forall i | 0 <= i < |L| :: AllPositive(L[i].queue)
    ensures SumL(L, VolumeOf(id)) >= 0
  {
    if L != [] {
      QueueVolume(L[0].queue, id);
      LadderVolume(L[1..], id);
    }
  }

  lemma LevelsPositive(s: Side, L: Ladder)
    requires SideOk(s, L)
    ensures forall i | 0 <= i < |L| :: AllPositive(L[i].queue)
  {
    forall i | 0 <= i < |L| ensures AllPositive(L[i].queue) {
      QueueAtIndex(s, L, i);
      assert QueueOk(s, L[i].price, QueueAt(L, L[i].price));
    }
  }

  // What has been filled under an id is never more than its balance.
  lemma FilledWithin(b: Book, id: int)
    requires Wf(b) && VoidsOk(b)
    ensures Filled(b, id) <= Balance(b, id)
  {
    FillVolNonNegative(b.voids, id);
    QueueVolume(b.parked, id);
    LevelsPositive(BUY, b.bids);
    LevelsPositive(SELL, b.asks);
    LadderVolume(b.bids, id);
    LadderVolume(b.asks, id);
  }

  // What has been filled under an id never exceeds what was submitted under it.
  lemma NeverOverfilled(symbol: string, ops: seq<Op>, id: int)
    requires AdmissibleRun(Empty(symbol), ops)
    ensures Filled(Run(Empty(symbol), ops), id) <= Credits(Empty(symbol), ops, id)
  {
    hide Run;
    var e := Empty(symbol);
    EmptyWf(symbol);
    RunBalance(e, ops, id);
    RunVoids(e, ops);
    RunSound(e, ops);
    FilledWithin(Run(e, ops), id);
  }
}
