// Inputs that show where the live market, recovery and modify depart from their comments.
module Witnesses {
  import opened Orders
  import opened Ladders
  import opened Matching
  import opened Books
  import opened Invariants
  import opened Tapes
  import opened Laws
  import opened Promotions
  import opened Recovery
  import opened Runs
  import opened Snapshot

  const SYMBOL := "S"

  // An order of volume one at price ten.
  function Unit(id: int, side: Side, kind: OrderType, trigger: Px): Order {
    Order(id, SYMBOL, 0, side, kind, GTC, STPNone, 10, trigger, 1)
  }

  predicate IsUnit(o: Order) {
    o == Unit(o.id, o.side, LIMIT, 0) && OnBook(o.side)
  }

  // ---- single operations on small books ----

  // An order that meets nothing rests whole.
  lemma RestsWhole(b: Book, o: Order)
    requires o.kind.LIMIT? && Normalize(o) == o && !o.tif.IOC? && !o.tif.FOK? && o.volume > 0
    requires OnBook(o.side) && !WouldCross(b, o)
    ensures Apply(b, New(o)) == Outcome(Rest(b, o), Result([], true, "")) && Live(b, New(o)) == Rest(b, o)
  {
    assert MatchTaker(b, o, false) == (b, o.volume);
    TradesAfter(b, b, []);
  }

  lemma UnitRests(b: Book, o: Order)
    requires IsUnit(o) && SideOf(b, Opposite(o.side)) == []
    ensures Apply(b, New(o)) == Outcome(Rest(b, o), Result([], true, "")) && Live(b, New(o)) == Rest(b, o)
  {
    RestsWhole(b, o);
  }

  lemma RestAlone(b: Book, o: Order)
    requires IsUnit(o) && SideOf(b, o.side) == [] && !b.sink
    ensures Rest(b, o) == SetSide(b, o.side, [Level(10, [o])])
  {
    assert [] + [o] == [o];
  }

  lemma RestBehind(b: Book, o: Order, p: Order)
    requires IsUnit(o) && SideOf(b, o.side) == [Level(10, [p])] && !b.sink
    ensures Rest(b, o) == SetSide(b, o.side, [Level(10, [p, o])])
  {
    assert [p] + [o] == [p, o];
    assert [Level(10, [p])][1..] == [];
  }

  // One unit against one unit.
  lemma UnitTrades(b: Book, t: Order, r: Order)
    requires IsUnit(t) && r.volume == 1 && SideOf(b, Opposite(t.side)) == [Level(10, [r])] && !b.sink
    ensures var m := MakeMatch(t, r.id, 10, 1, b.seqNo + 1);
      var c := SetSide(b, Opposite(t.side), []).(seqNo := b.seqNo + 1, tape := b.tape + [Trade(m)]);
      Apply(b, New(t)) == Outcome(c, Result([m], true, ""))
  {
    var s, m := Opposite(t.side), MakeMatch(t, r.id, 10, 1, b.seqNo + 1);
    var c := SetSide(b, s, []).(seqNo := b.seqNo + 1, tape := b.tape + [Trade(m)]);
    assert [r][1..] == [] && [Level(10, [r])][1..] == [];
    assert Matching.Step(t, 1, r) == Hit(0, [], [Fill(r, 1)], []);
    assert Greedy(t, 1, [r]) == Hit(0, [], [Fill(r, 1)], []);
    RecordOne(b, t, Fill(r, 1), 10);
    assert b.voids + [] == b.voids;
    assert LevelStep(b, t, 1) == (c, 0);
    assert MatchLevels(c, t, false, 0) == (c, 0);
    TradesAfter(b, c, [Trade(m)]);
  }

  // ---- a promoted stop order is not promoted again by replay ----

  const RESTING := Unit(1, SELL, LIMIT, 0)
  const STOP := Unit(2, SELL, STOP_LIMIT, 5)
  const TAKER := Unit(3, BUY, LIMIT, 0)

  // After the resting sell and the queued sell stop.
  const WAITING := Book(SYMBOL, [], [Level(10, [RESTING])], [STOP], 0, false, [], [])

  // ... and after the buy has taken the resting sell.
  const TRADED := Book(SYMBOL, [], [], [STOP], 1, false, [Trade(Match(1, 3, 1, 10, 1))], [])

  lemma WaitingIsReached()
    ensures Apply(Empty(SYMBOL), New(RESTING)).book == WAITING.(parked := [])
    ensures Apply(WAITING.(parked := []), New(STOP)).book == WAITING
    ensures Live(Empty(SYMBOL), New(RESTING)) == WAITING.(parked := [])
    ensures Live(WAITING.(parked := []), New(STOP)) == WAITING
  {
    UnitRests(Empty(SYMBOL), RESTING);
    RestAlone(Empty(SYMBOL), RESTING);
  }

  lemma StopIsPromoted()
    ensures Promote(TRADED, [STOP], [Match(1, 3, 1, 10, 1)]).asks == [Level(10, [STOP])]
  {
    assert [STOP][1..] == [];
    assert [Match(1, 3, 1, 10, 1)][1..] == [];
    assert QueueAt([], 10) + [STOP] == [STOP];
    assert HandleLimit(TRADED, STOP).book.asks == [Level(10, [STOP])];
  }

  lemma TradeIsPromoted()
    ensures Live(WAITING, New(TAKER)).asks == [Level(10, [STOP])]
  {
    hide Apply, Promote;
    UnitTrades(WAITING, TAKER, RESTING);
    assert [] + [Trade(Match(1, 3, 1, 10, 1))] == TRADED.tape;
    StopIsPromoted();
  }

  const TRIGGERING := [New(RESTING), New(STOP), New(TAKER)]

  lemma TriggeringRuns()
    ensures Run(Empty(SYMBOL), []) == Empty(SYMBOL)
    ensures Run(Empty(SYMBOL), TRIGGERING[..1]) == WAITING.(parked := [])
    ensures Run(Empty(SYMBOL), TRIGGERING[..2]) == WAITING
    ensures Run(Empty(SYMBOL), TRIGGERING) == TRADED
  {
    hide Apply;
    WaitingIsReached();
    UnitTrades(WAITING, TAKER, RESTING);
    assert [] + [Trade(Match(1, 3, 1, 10, 1))] == TRADED.tape;
    var e, j := Empty(SYMBOL), TRIGGERING;
    assert j[..1] == [New(RESTING)] && j[..1][..0] == [] && j[..2][..1] == j[..1] && j[..|j| - 1] == j[..2];
    assert Run(e, []) == e;
    assert Run(e, j[..1]) == Apply(e, New(RESTING)).book;
    assert j[..2][1] == New(STOP) && Run(e, j[..2]) == Apply(Run(e, j[..1]), New(STOP)).book;
    assert j[2] == New(TAKER) && Run(e, j) == Apply(Run(e, j[..2]), New(TAKER)).book;
    assert SetSide(WAITING, SELL, []).(seqNo := 1, tape := TRADED.tape) == TRADED;
  }

  // The live market promotes the stop order after the trade; replay does not, because a record
  // is applied without walking the queue of stop orders.
  lemma PromotionIsNotReplayed()
    ensures var live := Live(Live(Live(Empty(SYMBOL), New(RESTING)), New(STOP)), New(TAKER));
      live.asks == [Level(10, [STOP])] && Run(Empty(SYMBOL), TRIGGERING).asks == []
    ensures AdmissibleRun(Empty(SYMBOL), TRIGGERING)
  {
    hide Live, Run;
    WaitingIsReached();
    TriggeringRuns();
    TradeIsPromoted();
    assert TRIGGERING[..0] == [];
  }

  // ---- one operation promotes a stop order twice ----

  const SELL_A := Unit(1, SELL, LIMIT, 0)
  const SELL_B := Unit(2, SELL, LIMIT, 0)
  const SELL_STOP := Unit(3, SELL, STOP_LIMIT, 5)
  const BUY_BOTH := Unit(4, BUY, LIMIT, 0).(volume := 2)

  const TWO_SELLS := Book(SYMBOL, [], [Level(10, [SELL_A, SELL_B])], [SELL_STOP], 0, false, [], [])
  const MATCHES := [Match(1, 4, 1, 10, 1), Match(2, 4, 2, 10, 1)]
  const BOTH_SOLD := Book(SYMBOL, [], [], [SELL_STOP], 2, false, [Trade(MATCHES[0]), Trade(MATCHES[1])], [])

  lemma TwoSellsReached()
    ensures var b := Live(Live(Live(Empty(SYMBOL), New(SELL_A)), New(SELL_B)), New(SELL_STOP)); b == TWO_SELLS
  {
    var e := Empty(SYMBOL);
    UnitRests(e, SELL_A);
    RestAlone(e, SELL_A);
    UnitRests(Rest(e, SELL_A), SELL_B);
    RestBehind(Rest(e, SELL_A), SELL_B, SELL_A);
  }

  lemma BothAreSold()
    ensures Apply(TWO_SELLS, New(BUY_BOTH)) == Outcome(BOTH_SOLD, Result(MATCHES, true, ""))
  {
    hide LevelStep, TradesSince;
    BothTaken();
    assert MatchLevels(BOTH_SOLD, BUY_BOTH, false, 0) == (BOTH_SOLD, 0);
    assert MatchTaker(TWO_SELLS, BUY_BOTH, false) == (BOTH_SOLD, 0);
    BothReported();
  }

  lemma BothTaken()
    ensures LevelStep(TWO_SELLS, BUY_BOTH, 2) == (BOTH_SOLD, 0)
  {
    hide Record;
    BothMatched();
    BothRecorded();
    assert TWO_SELLS.asks[1..] == [];
  }

  lemma BothMatched()
    ensures Greedy(BUY_BOTH, 2, [SELL_A, SELL_B]) == Hit(0, [], [Fill(SELL_A, 1), Fill(SELL_B, 1)], [])
  {
    assert [SELL_A, SELL_B][1..] == [SELL_B] && [SELL_B][1..] == [];
    assert Matching.Step(BUY_BOTH, 2, SELL_A) == Hit(1, [], [Fill(SELL_A, 1)], []);
    assert Matching.Step(BUY_BOTH, 1, SELL_B) == Hit(0, [], [Fill(SELL_B, 1)], []);
    assert Greedy(BUY_BOTH, 1, [SELL_B]) == Hit(0, [], [Fill(SELL_B, 1)], []);
    assert [Fill(SELL_A, 1)] + [Fill(SELL_B, 1)] == [Fill(SELL_A, 1), Fill(SELL_B, 1)];
  }

  lemma BothReported()
    ensures TWO_SELLS.tape <= BOTH_SOLD.tape && TradesSince(TWO_SELLS, BOTH_SOLD) == MATCHES
  {
    TapeSnoc([Trade(MATCHES[0])], Trade(MATCHES[1]));
    TapeSnoc([], Trade(MATCHES[0]));
    assert BOTH_SOLD.tape[0..] == [Trade(MATCHES[0])] + [Trade(MATCHES[1])];
    assert [] + [Trade(MATCHES[0])] == [Trade(MATCHES[0])] && [] + [MATCHES[0]] + [MATCHES[1]] == MATCHES;
  }

  lemma BothRecorded()
    ensures Record(TWO_SELLS, BUY_BOTH, [Fill(SELL_A, 1), Fill(SELL_B, 1)], 10) == BOTH_SOLD.(asks := TWO_SELLS.asks)
  {
    var f := [Fill(SELL_A, 1), Fill(SELL_B, 1)];
    assert f[1..] == [Fill(SELL_B, 1)];
    var b := TWO_SELLS.(seqNo := 1, tape := [Trade(MATCHES[0])]);
    assert [] + [Trade(MATCHES[0])] == [Trade(MATCHES[0])];
    RecordOne(b, BUY_BOTH, Fill(SELL_B, 1), 10);
    assert [Trade(MATCHES[0])] + [Trade(MATCHES[1])] == BOTH_SOLD.tape;
  }

  // Two sells, a sell stop and a buy of both: the two matches rest the stop order twice.
  lemma StopRestsTwice()
    ensures !Sound(Live(Live(Live(Live(Empty(SYMBOL), New(SELL_A)), New(SELL_B)), New(SELL_STOP)), New(BUY_BOTH)))
  {
    hide Apply, PromoteOne;
    TwoSellsReached();
    BothAreSold();
    EmptyWf(SYMBOL);
    assert Sound(BOTH_SOLD) by { SameLadders(Empty(SYMBOL), BOTH_SOLD); }
    PromotedTwice(BOTH_SOLD, SELL_STOP, MATCHES[0], MATCHES[1]);
    assert MATCHES == [MATCHES[0], MATCHES[1]] && [SELL_STOP][1..] == [];
    assert Promote(BOTH_SOLD, [SELL_STOP], MATCHES) == PromoteOne(BOTH_SOLD, SELL_STOP, MATCHES);
  }

  // ---- numbers handed out again after a restart ----

  // With a callback installed, resting one order takes number 1; after a restart the next event
  // takes it again.
  lemma RestartRepeats()
    ensures var m := Market(Live(Recover(SYMBOL, [], true), New(RESTING)), [New(RESTING)], None);
      && Recovery.Reachable(m, [Append(New(RESTING)), Complete], SYMBOL, true)
      && m.book.seqNo == 1 && Next(m, Crash, SYMBOL, true).book.seqNo == 0
  {
    hide Live, Run;
    var op := New(RESTING);
    var steps := [Append(op), Complete];
    var m0 := Market(Recover(SYMBOL, [], true), [], None);
    var m1, m2 := Next(m0, Append(op), SYMBOL, true), Market(Live(Recover(SYMBOL, [], true), op), [op], None);
    assert steps[..1] == [Append(op)] && steps[..1][..0] == [] && [] + [op] == [op];
    assert Recovery.Reachable(m0, [], SYMBOL, true) && Enabled(m0, steps[0]);
    assert Recovery.Reachable(m1, steps[..1], SYMBOL, true) && Enabled(m1, Complete);
    assert m2 == Next(m1, Complete, SYMBOL, true);
    FirstNumbers();
  }

  lemma FirstNumbers()
    ensures Live(Recover(SYMBOL, [], true), New(RESTING)).seqNo == 1
    ensures Run(Empty(SYMBOL), [New(RESTING)]).seqNo == 0
  {
    assert [New(RESTING)][..0] == [];
    assert Run(Empty(SYMBOL), []) == Empty(SYMBOL);
    UnitRests(Empty(SYMBOL), RESTING);
    UnitRests(Recover(SYMBOL, [], true), RESTING);
  }

  // A crash between append and apply: one delta is out and the buy in flight makes one trade, so
  // the counter comes back as it was.
  lemma CrashInFlight()
    ensures var b := Live(Recover(SYMBOL, [], true), New(RESTING));
      var m := Market(b, [New(RESTING), New(TAKER)], Some(New(TAKER)));
      && Recovery.Reachable(m, [Append(New(RESTING)), Complete, Append(New(TAKER))], SYMBOL, true)
      && m.book.seqNo == 1 && DeltasOf(m.book.tape) != [] && Next(m, Crash, SYMBOL, true).book.seqNo == 1
  {
    hide Live, Run, DeltasOf;
    var r, t := New(RESTING), New(TAKER);
    var steps := [Append(r), Complete, Append(t)];
    var m2 := Market(Live(Recover(SYMBOL, [], true), r), [r], None);
    RestartRepeats();
    assert steps[..2] == [Append(r), Complete] && [r] + [t] == [r, t];
    assert Recovery.Reachable(m2, steps[..2], SYMBOL, true) && Enabled(m2, steps[2]);
    assert Next(m2, Append(t), SYMBOL, true) == Market(m2.book, [r, t], Some(t));
    InFlightNumbers();
  }

  lemma InFlightNumbers()
    ensures DeltasOf(Live(Recover(SYMBOL, [], true), New(RESTING)).tape) != []
    ensures Run(Empty(SYMBOL), [New(RESTING), New(TAKER)]).seqNo == 1
  {
    hide Apply;
    var e, j, b := Empty(SYMBOL), [New(RESTING), New(TAKER)], Recover(SYMBOL, [], true);
    assert Run(e, []) == e && [New(RESTING)][..0] == [] && j[..1] == [New(RESTING)];
    UnitRests(e, RESTING);
    RestAlone(e, RESTING);
    UnitTrades(Rest(e, RESTING), TAKER, RESTING);
    UnitRests(b, RESTING);
    TapeSnoc([], Rest(b, RESTING).tape[0]);
    assert Rest(b, RESTING).tape == [] + [Rest(b, RESTING).tape[0]];
  }

  // ---- a journal replayed over a snapshot ----

  // One order that rests is enough to rest its id twice.
  lemma SnapshotThenJournal()
    ensures var j := [New(RESTING)]; var b := Restored(Run(Empty(SYMBOL), j));
      AdmissibleRun(Empty(SYMBOL), j) && Sound(b) && !AdmissibleRun(b, j) && !Wf(Run(b, j))
  {
    hide Apply, Admissible;
    var e, j := Empty(SYMBOL), [New(RESTING)];
    var c := Rest(e, RESTING);
    var b := Restored(c);
    EmptyWf(SYMBOL);
    assert j[..0] == [] && j[..|j| - 1] == [] && Run(e, []) == e && Run(b, []) == b;
    assert Lookup(e, 1) == None;
    FreeIsAdmissible(e, RESTING);
    UnitRests(e, RESTING);
    RestAlone(e, RESTING);
    assert Run(e, j) == c;
    RunSound(e, j);
    SameLadders(c, b);
    assert Lookup(b, 1) == Some(RESTING);
    ReplayedTwice(b, RESTING);
    assert Run(b, j) == Apply(b, New(RESTING)).book;
    ApplySound(b, New(RESTING));
  }

  const SELL_7 := Unit(7, SELL, LIMIT, 0)
  const BUY_8 := Unit(8, BUY, LIMIT, 0)
  const BUY_5 := Unit(5, BUY, LIMIT, 0)
  const CROSSED := [New(SELL_7), New(BUY_8), New(BUY_5)]

  // Every record is admissible over the snapshot too, every book on the way is sound, and the
  // result is another book: the sell now takes the bid of the snapshot, and both buys rest.
  lemma SnapshotMisleads()
    ensures var b := Run(Empty(SYMBOL), CROSSED); var c := Run(Restored(b), CROSSED);
      && AdmissibleRun(Empty(SYMBOL), CROSSED) && AdmissibleRun(Restored(b), CROSSED)
      && b.bids == [Level(10, [BUY_5])] && c.bids == [Level(10, [BUY_8, BUY_5])]
  {
    hide Run, Apply, Admissible;
    var e := Empty(SYMBOL);
    var b1, b2 := Rest(e, SELL_7), Apply(Rest(e, SELL_7), New(BUY_8)).book;
    UnitRests(e, SELL_7);
    RestAlone(e, SELL_7);
    UnitTrades(b1, BUY_8, SELL_7);
    UnitRests(b2, BUY_5);
    RestAlone(b2, BUY_5);
    ThreeSteps(e, b1, b2, Rest(b2, BUY_5));
    var r := Restored(Rest(b2, BUY_5));
    var c1 := Apply(r, New(SELL_7)).book;
    UnitTrades(r, SELL_7, BUY_5);
    UnitRests(c1, BUY_8);
    RestAlone(c1, BUY_8);
    var c2 := Rest(c1, BUY_8);
    UnitRests(c2, BUY_5);
    RestBehind(c2, BUY_5, BUY_8);
    ThreeSteps(r, c1, c2, Rest(c2, BUY_5));
  }

  // The run, if no record meets its id resting.
  lemma ThreeSteps(b: Book, b1: Book, b2: Book, b3: Book)
    requires b1 == Apply(b, New(SELL_7)).book && b2 == Apply(b1, New(BUY_8)).book && b3 == Apply(b2, New(BUY_5)).book
    requires Lookup(b, 7) == None && Lookup(b1, 8) == None && Lookup(b2, 5) == None
    ensures Run(b, CROSSED) == b3 && AdmissibleRun(b, CROSSED)
  {
    hide Apply, Admissible, Lookup;
    var j := CROSSED;
    assert j[..0] == [] && j[..1] == [New(SELL_7)] && j[..2] == [New(SELL_7), New(BUY_8)];
    assert j[..1][..0] == [] && j[..2][..1] == j[..1] && j[..|j| - 1] == j[..2];
    assert Run(b, []) == b && Run(b, j[..1]) == b1 && Run(b, j[..2]) == b2;
    FreeIsAdmissible(b, SELL_7);
    FreeIsAdmissible(b1, BUY_8);
    FreeIsAdmissible(b2, BUY_5);
    forall k | 0 <= k < |j| ensures Admissible(Run(b, j[..k]), j[k]) {
      assert k == 0 || k == 1 || k == 2;
    }
  }

  // ---- a refused modify ----

  const MAKER := Order(1, SYMBOL, 0, BUY, LIMIT, PostOnly, STPNone, 9, 0, 1)
  const OTHER := Unit(2, SELL, LIMIT, 0)

  const JOINED := [New(MAKER), New(OTHER)]
  const QUOTED := Book(SYMBOL, [Level(9, [MAKER])], [Level(10, [OTHER])], [], 0, false, [], [])

  // A resting post-only order moved to a price that crosses: the modify is refused, and the
  // order is gone.
  lemma PostOnlyMoveIsLost()
    ensures var b := Run(Empty(SYMBOL), JOINED); var r := Apply(b, ModifyOp(1, 10, 1));
      && AdmissibleRun(Empty(SYMBOL), JOINED)
      && Lookup(b, 1) == Some(MAKER) && !r.result.accepted && !Resting(r.book, 1)
  {
    hide Run, AdmissibleRun, Submit, Put, LookupIn, Wf;
    MakerJoins();
    MakerIsFound();
    EmptyWf(SYMBOL);
    RunSound(Empty(SYMBOL), JOINED);
    RefusedModify(QUOTED, 1, 10, 1);
    CancelKeeps(QUOTED, 1);
  }

  lemma MakerJoins()
    ensures Run(Empty(SYMBOL), JOINED) == QUOTED && AdmissibleRun(Empty(SYMBOL), JOINED)
  {
    hide Apply, Admissible, LookupIn;
    var e, j := Empty(SYMBOL), JOINED;
    var b1 := e.(bids := [Level(9, [MAKER])]);
    MakerRests();
    MakerIsFound();
    FreeIsAdmissible(e, MAKER);
    FreeIsAdmissible(b1, OTHER);
    assert j[..0] == [] && j[..1] == [New(MAKER)] && j[..1][..0] == [] && j[..|j| - 1] == j[..1] && Run(e, []) == e;
    assert Run(e, j[..1]) == b1 && Run(e, j) == QUOTED;
    forall k | 0 <= k < |j| ensures Admissible(Run(e, j[..k]), j[k]) { assert k == 0 || k == 1; }
  }

  lemma MakerIsFound()
    ensures LookupIn([Level(9, [MAKER])], 2) == None && LookupIn([], 2) == None && LookupIn([], 1) == None
    ensures LookupIn([Level(9, [MAKER])], 1) == Some(MAKER)
  {
    assert [Level(9, [MAKER])][1..] == [] && [MAKER][1..] == [];
    assert IndexOf([MAKER], 2) == 1 && IndexOf([MAKER], 1) == 0;
  }

  lemma MakerRests()
    ensures var e := Empty(SYMBOL); var b1 := e.(bids := [Level(9, [MAKER])]);
      && Apply(e, New(MAKER)).book == b1
      && Apply(b1, New(OTHER)).book == b1.(asks := [Level(10, [OTHER])])
  {
    var e := Empty(SYMBOL);
    var b1 := e.(bids := [Level(9, [MAKER])]);
    RestsWhole(e, MAKER);
    assert [] + [MAKER] == [MAKER];
    RestsWhole(b1, OTHER);
    RestAlone(b1, OTHER);
  }
}
