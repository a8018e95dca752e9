// The market as a write-ahead state machine: journal first, then apply. Recovery replays the
// journal over an empty book.
module Recovery {
  import opened Orders
  import opened Ladders
  import opened Books
  import opened Feed
  import opened Invariants
  import opened Tapes
  import opened Moves
  import opened Plans
  import opened Runs
  import opened Promotions

  // ---- the state machine ----

  // `pending` is the operation that has been journaled but not applied yet.
  datatype Market = Market(book: Book, journal: seq<Op>, pending: Option<Op>)

  // `published`: the operator installed an L2 sink.
  function Recover(symbol: string, journal: seq<Op>, published: bool): Book {
    Run(Empty(symbol), journal).(sink := published)
  }

  datatype Step =
    | Refuse(op: Op)   // invalid order, or the append failed: nothing happens
    | Append(op: Op)   // the record is durable
    | Complete         // ... and is applied
    | Crash            // the process restarts from the journal

  predicate Enabled(m: Market, st: Step) {
    match st
    case Refuse(_) => m.pending.None?
    case Append(op) => m.pending.None? && (op.New? ==> Validates(op.order))
    case Complete => m.pending.Some?
    case Crash => true
  }

  function Next(m: Market, st: Step, symbol: string, published: bool): Market
    requires Enabled(m, st)
  {
    match st
    case Refuse(_) => m
    case Append(op) => Market(m.book, m.journal + [op], Some(op))
    case Complete => Market(Live(m.book, m.pending.value), m.journal, None)
    case Crash => Market(Recover(symbol, m.journal, published), m.journal, None)
  }

  ghost predicate Reachable(m: Market, steps: seq<Step>, symbol: string, published: bool)
    decreases |steps|
  {
    if steps == [] then m == Market(Recover(symbol, [], published), [], None)
    else
      var n := |steps| - 1;
      exists m0 :: Reachable(m0, steps[..n], symbol, published) && Enabled(m0, steps[n])
                   && m == Next(m0, steps[n], symbol, published)
  }

  // The book once the pending operation has been applied.
  function Settled(m: Market): Book {
    if m.pending.Some? then Live(m.book, m.pending.value) else m.book
  }

  // ---- two books that differ only in what was published ----

  // Matches without their sequence numbers.
  function Prints(ms: seq<Match>): seq<Match> {
    if ms == [] then [] else [ms[0].(seqNo := 0)] + Prints(ms[1..])
  }

  lemma {:induction false} PrintsConcat(a: seq<Match>, b: seq<Match>)
    ensures Prints(a + b) == Prints(a) + Prints(b)
  {
    if a == [] {
      assert a + b == b;
    } else {
      assert (a + b)[1..] == a[1..] + b;
      PrintsConcat(a[1..], b);
      assert [a[0].(seqNo := 0)] + (Prints(a[1..]) + Prints(b)) == [a[0].(seqNo := 0)] + Prints(a[1..]) + Prints(b);
    }
  }

  // b and its replay c: same ladders, same queue of stop orders, same withdrawals, same trades
  // but for their numbers; the counters differ by exactly the deltas b has published.
  ghost predicate Replays(b: Book, c: Book) {
    && Same(b, c) && b.parked == c.parked && b.voids == c.voids && !c.sink
    && Prints(TradesOf(b.tape)) == Prints(TradesOf(c.tape))
    && DeltasOf(c.tape) == [] && b.seqNo == c.seqNo + |DeltasOf(b.tape)|
  }

  lemma PrintsSnoc(ms: seq<Match>, m: Match)
    ensures Prints(ms + [m]) == Prints(ms) + [m.(seqNo := 0)]
  {
    PrintsConcat(ms, [m]);
    assert [m][1..] == [];
    assert Prints([m]) == [m.(seqNo := 0)] + Prints([]);
  }

  lemma PrintReplays(b: Book, c: Book, m: Move)
    requires Replays(b, c) && m.Print?
    ensures Replays(Do(b, m), Do(c, m))
  {
    hide Prints, TradesOf, DeltasOf;
    var x := MakeMatch(m.t, m.restingId, m.price, m.qty, b.seqNo + 1);
    var y := MakeMatch(m.t, m.restingId, m.price, m.qty, c.seqNo + 1);
    TapeSnoc(b.tape, Trade(x));
    TapeSnoc(c.tape, Trade(y));
    PrintsSnoc(TradesOf(b.tape), x);
    PrintsSnoc(TradesOf(c.tape), y);
  }

  lemma DoReplays(b: Book, c: Book, m: Move)
    requires Replays(b, c)
    ensures Replays(Do(b, m), Do(c, m))
  {
    if m.Print? {
      PrintReplays(b, c, m);
    } else {
      hide Prints, TradesOf, DeltasOf, Put, SumQ;
      if m.Quote? && b.sink {
        TapeSnoc(b.tape, Do(b, m).tape[|b.tape|]);
        assert TradesOf(b.tape) + [] == TradesOf(b.tape);
      }
    }
  }

  lemma {:induction false} ExecReplays(b: Book, c: Book, ms: seq<Move>)
    requires Replays(b, c)
    ensures Replays(Exec(b, ms), Exec(c, ms))
    decreases |ms|
  {
    if ms != [] {
      DoReplays(b, c, ms[0]);
      ExecReplays(Do(b, ms[0]), Do(c, ms[0]), ms[1..]);
    }
  }

  // Applying an operation and applying its record in replay keep the books in step.
  lemma ApplyReplays(b: Book, c: Book, op: Op)
    requires Replays(b, c) && Sound(c) && Admissible(c, op)
    ensures Replays(Apply(b, op).book, Apply(c, op).book)
    ensures Agree(Apply(c, op), Apply(b, op))
  {
    var ms := ApplyLeads(c, b, op, Subject(op));
    ExecReplays(b, c, ms);
  }

  // ---- when the live path and its replay agree ----

  // A new order reports exactly the trades it put on the tape.
  lemma NewReports(b: Book, o: Order)
    ensures Submit(b, o).result.matches == TradesSince(b, Submit(b, o).book)
  {
    var n := Normalize(o);
    LimitReports(b, n);
    var (b1, remain) := MatchTaker(b, n, true);
    TradesUnchanged(b, b1, Withdraw(b1, n, remain));
    TradesAfter(b, b, []);
    TradesUnchanged(b, b, b.(parked := b.parked + [n]));
  }

  lemma LimitReports(b: Book, o: Order)
    ensures HandleLimit(b, o).result.matches == TradesSince(b, HandleLimit(b, o).book)
  {
    hide MatchTaker;
    TradesAfter(b, b, []);
    var (b1, remain) := MatchTaker(b, o, false);
    TradesUnchanged(b, b1, Withdraw(b1, o, remain));
    TradesUnchanged(b, b1, b1);
    if remain > 0 { RestTape(b, b1, o.(volume := remain)); }
  }

  lemma RestTape(b: Book, b1: Book, o: Order)
    requires b.tape <= b1.tape
    ensures b.tape <= Rest(b1, o).tape && TradesSince(b, Rest(b1, o)) == TradesSince(b, b1)
  {
    TradesUnchanged(b, b1, Rest(b1, o));
  }

  // Books in step report the same matches but for the numbers.
  lemma SameReports(b: Book, c: Book, b': Book, c': Book)
    requires Replays(b, c) && Replays(b', c') && b.tape <= b'.tape && c.tape <= c'.tape
    ensures Prints(TradesSince(b, b')) == Prints(TradesSince(c, c'))
  {
    assert b'.tape == b.tape + b'.tape[|b.tape|..] && c'.tape == c.tape + c'.tape[|c.tape|..];
    TradesConcat(b.tape, b'.tape[|b.tape|..]);
    TradesConcat(c.tape, c'.tape[|c.tape|..]);
    var p, x, y := Prints(TradesOf(b.tape)), Prints(TradesSince(b, b')), Prints(TradesSince(c, c'));
    PrintsConcat(TradesOf(b.tape), TradesSince(b, b'));
    PrintsConcat(TradesOf(c.tape), TradesSince(c, c'));
    assert p + x == p + y;
    assert x == (p + x)[|p|..] && y == (p + y)[|p|..];
  }

  lemma {:induction false} PrintsAt(ms: seq<Match>)
    ensures |Prints(ms)| == |ms| && forall i | 0 <= i < |ms| :: Prints(ms)[i] == ms[i].(seqNo := 0)
  {
    if ms != [] { PrintsAt(ms[1..]); }
  }

  // Harmlessness reads ladders and prices only.
  lemma HarmlessTransfers(b: Book, c: Book, parked: seq<Order>, ms: seq<Match>, ns: seq<Match>)
    requires Same(b, c) && Prints(ms) == Prints(ns) && AllHarmless(b, parked, ms)
    ensures AllHarmless(c, parked, ns)
  {
    hide CanFullyFill, WouldCross, IsTriggered, Prints;
    PrintsAt(ms);
    PrintsAt(ns);
    forall o, n | o in parked && n in ns && IsTriggered(o, n.price) ensures Harmless(c, o) {
      var i :| 0 <= i < |ns| && ns[i] == n;
      assert Prints(ms)[i] == Prints(ns)[i] && ms[i].price == n.price && ms[i] in ms;
      assert Harmless(b, o);
      ChecksAgree(b, c, o);
    }
  }

  // So an operation is quiet live exactly when it is in replay.
  lemma QuietTransfers(b: Book, c: Book, op: Op)
    requires Replays(b, c) && Sound(c) && Admissible(c, op)
    ensures Quiet(b, op) <==> Quiet(c, op)
  {
    if op.New? {
      hide Submit, Replays, Sound, AllHarmless, Same;
      var rb, rc := Apply(b, op), Apply(c, op);
      ApplyReplays(b, c, op);
      NewReports(b, op.order);
      NewReports(c, op.order);
      SameReports(b, c, rb.book, rc.book);
      SameQueue(rb.book, rc.book);
      if Quiet(b, op) { HarmlessTransfers(rb.book, rc.book, rb.book.parked, rb.result.matches, rc.result.matches); }
      if Quiet(c, op) {
        SameBack(rb.book, rc.book);
        HarmlessTransfers(rc.book, rb.book, rb.book.parked, rc.result.matches, rb.result.matches);
      }
    }
  }

  lemma SameBack(b: Book, c: Book)
    requires Same(b, c)
    ensures Same(c, b)
  {
  }

  lemma SameQueue(b: Book, c: Book)
    requires Replays(b, c)
    ensures b.parked == c.parked && Same(b, c)
  {
  }

  lemma SameTrace(b: Book, c: Book)
    requires Replays(b, c)
    ensures Trace(b) == Trace(c)
  {
    PrintsAt(TradesOf(b.tape));
    PrintsAt(TradesOf(c.tape));
  }

  lemma SameSound(b: Book, c: Book)
    requires Replays(b, c) && Sound(c)
    ensures Sound(b)
  {
    SameLadders(b, c);
  }

  // One operation, promotion included: the live book and its replay stay in step exactly when
  // the operation is quiet.
  lemma LiveReplays(b: Book, c: Book, op: Op)
    requires Replays(b, c) && Sound(c) && Admissible(c, op)
    ensures Replays(Live(b, op), Apply(c, op).book) <==> Quiet(c, op)
  {
    hide Replays, Sound, Quiet, Apply, Live, Trace;
    ApplyReplays(b, c, op);
    QuietTransfers(b, c, op);
    SameSound(b, c);
    LiveIsApply(b, op);
    SameTrace(Apply(b, op).book, Apply(c, op).book);
    if Replays(Live(b, op), Apply(c, op).book) { SameTrace(Live(b, op), Apply(c, op).book); }
  }

  lemma EmptyReplays(b: Book, published: bool)
    requires !b.sink && DeltasOf(b.tape) == []
    ensures Replays(b.(sink := published), b)
  {
  }

  lemma {:induction false} ReplayIsQuiet(symbol: string, journal: seq<Op>)
    requires AdmissibleRun(Empty(symbol), journal)
    ensures var c := Run(Empty(symbol), journal);
      Sound(c) && !c.sink && DeltasOf(c.tape) == []
    decreases |journal|
  {
    EmptyWf(symbol);
    RunSound(Empty(symbol), journal);
    if journal != [] {
      var n := |journal| - 1;
      RunPrefix(Empty(symbol), journal);
      ReplayIsQuiet(symbol, journal[..n]);
      var c := Run(Empty(symbol), journal[..n]);
      EmptyReplays(c, false);
      assert c.(sink := false) == c;
      ApplyReplays(c, c, journal[n]);
    }
  }

  // ---- recovery ----

  // What the producer guarantees of the journal, and that no operation promotes anything.
  ghost predicate Journaled(symbol: string, journal: seq<Op>) {
    && AdmissibleRun(Empty(symbol), journal)
    && forall k | 0 <= k < |journal| :: Quiet(Run(Empty(symbol), journal[..k]), journal[k])
  }

  function Applied(m: Market): seq<Op> {
    if m.pending.Some? && m.journal != [] then m.journal[..|m.journal| - 1] else m.journal
  }

  ghost predicate InStep(m: Market, symbol: string) {
    && (m.pending.Some? ==> m.journal != [] && m.journal[|m.journal| - 1] == m.pending.value)
    && Replays(m.book, Run(Empty(symbol), Applied(m)))
  }

  lemma JournalPrefix(symbol: string, journal: seq<Op>)
    requires Journaled(symbol, journal) && journal != []
    ensures Journaled(symbol, journal[..|journal| - 1])
    ensures Quiet(Run(Empty(symbol), journal[..|journal| - 1]), journal[|journal| - 1])
  {
    var n := |journal| - 1;
    RunPrefix(Empty(symbol), journal);
    forall k | 0 <= k < n ensures Quiet(Run(Empty(symbol), journal[..n][..k]), journal[..n][k]) {
      assert journal[..n][..k] == journal[..k];
    }
  }

  // Settling a state in step: the live book after the pending operation replays to the whole
  // journal.
  lemma SettledInStep(m: Market, symbol: string)
    requires InStep(m, symbol) && Journaled(symbol, m.journal)
    ensures Replays(Settled(m), Run(Empty(symbol), m.journal))
  {
    if m.pending.Some? {
      var n := |m.journal| - 1;
      var c := Run(Empty(symbol), m.journal[..n]);
      RunPrefix(Empty(symbol), m.journal);
      JournalPrefix(symbol, m.journal);
      ReplayIsQuiet(symbol, m.journal[..n]);
      LiveReplays(m.book, c, m.journal[n]);
    }
  }

  lemma NextInStep(m: Market, st: Step, symbol: string, published: bool)
    requires InStep(m, symbol) && Enabled(m, st)
    requires Journaled(symbol, Next(m, st, symbol, published).journal)
    ensures InStep(Next(m, st, symbol, published), symbol)
  {
    hide Replays, Live, Run, Quiet, Admissible, DeltasOf;
    match st
    case Refuse(_) =>
    case Append(op) =>
      assert (m.journal + [op])[..|m.journal|] == m.journal;
    case Complete =>
      SettledInStep(m, symbol);
    case Crash =>
      ReplayIsQuiet(symbol, m.journal);
      EmptyReplays(Run(Empty(symbol), m.journal), published);
  }

  lemma StartInStep(symbol: string, published: bool)
    ensures InStep(Market(Recover(symbol, [], published), [], None), symbol)
  {
    EmptyReplays(Empty(symbol), published);
  }

  // The main theorem: in every reachable state, also between append and apply and after any
  // number of crashes, replaying the journal gives the ladders, queues, withdrawals and trades
  // of the live book with its pending operation applied; the live counter is ahead by exactly
  // the deltas published since the last start.
  lemma {:induction false} RecoveryIsExact(m: Market, steps: seq<Step>, symbol: string, published: bool)
    requires Reachable(m, steps, symbol, published) && Journaled(symbol, m.journal)
    ensures InStep(m, symbol)
    ensures Replays(Settled(m), Run(Empty(symbol), m.journal))
    decreases |steps|
  {
    hide InStep, Replays, Journaled, Live, Run;
    if steps == [] {
      StartInStep(symbol, published);
    } else {
      var n := |steps| - 1;
      var m0 :| Reachable(m0, steps[..n], symbol, published) && Enabled(m0, steps[n])
                && m == Next(m0, steps[n], symbol, published);
      if steps[n].Append? {
        assert m.journal[..|m.journal| - 1] == m0.journal;
        JournalPrefix(symbol, m.journal);
      }
      RecoveryIsExact(m0, steps[..n], symbol, published);
      NextInStep(m0, steps[n], symbol, published);
    }
    SettledInStep(m, symbol);
  }

  lemma {:induction false} EventsAreBoth(es: seq<Event>)
    ensures |es| == |TradesOf(es)| + |DeltasOf(es)|
  {
    if es != [] { EventsAreBoth(es[1..]); }
  }

  // Applying an operation advances the counter by its trades and, with a callback, its deltas.
  lemma ApplyCounts(b: Book, op: Op)
    requires Sound(b) && Admissible(b, op)
    ensures var c := Apply(b, op).book;
      && c.seqNo - |DeltasOf(c.tape)| == b.seqNo - |DeltasOf(b.tape)| + |TradesSince(b, c)|
  {
    hide Apply, Sound, Leads, TradesOf, DeltasOf;
    var c := Apply(b, op).book;
    var ms := ApplyLeads(b, b, op, Subject(op)) by { SoundIsWf(b); }
    assert Exec(b, ms) == c by { ExecIs(b, c, b, c, ms, Subject(op)); }
    ExecNumbers(b, ms);
    var es := c.tape[|b.tape|..];
    assert c.tape == b.tape + es;
    EventsAreBoth(es);
    DeltasConcat(b.tape, es);
  }

  lemma ExecIs(b: Book, b': Book, c: Book, c': Book, ms: seq<Move>, id: int)
    requires Leads(b, b', c, c', ms, id)
    ensures Exec(b, ms) == b'
  {
  }

  lemma SoundIsWf(b: Book)
    requires Sound(b)
    ensures Wf(b)
  {
  }

  // A crash at any point: the counter gains what the pending operation trades and loses the
  // deltas published since the last start, for which replay draws no number.
  lemma RestartCounts(m: Market, steps: seq<Step>, symbol: string, published: bool)
    requires Reachable(m, steps, symbol, published) && Journaled(symbol, m.journal)
    ensures m.book.tape <= Settled(m).tape
    ensures Next(m, Crash, symbol, published).book.seqNo ==
      m.book.seqNo + |TradesSince(m.book, Settled(m))| - |DeltasOf(m.book.tape)|
  {
    hide Run, Live, Apply, Quiet, Admissible, Sound, TradesOf, DeltasOf;
    RecoveryIsExact(m, steps, symbol, published);
    if m.pending.Some? {
      PendingIsApplied(m, symbol);
      ApplyCounts(m.book, m.pending.value);
    } else {
      TradesAfter(m.book, m.book, []);
    }
  }

  lemma PendingIsApplied(m: Market, symbol: string)
    requires InStep(m, symbol) && Journaled(symbol, m.journal) && m.pending.Some?
    ensures Sound(m.book) && Admissible(m.book, m.pending.value) && Quiet(m.book, m.pending.value)
    ensures Settled(m) == Apply(m.book, m.pending.value).book
  {
    hide Replays, Live, Apply, Quiet, Sound, Admissible;
    var n := |m.journal| - 1;
    var c := Run(Empty(symbol), m.journal[..n]);
    RunPrefix(Empty(symbol), m.journal);
    JournalPrefix(symbol, m.journal);
    ReplayIsQuiet(symbol, m.journal[..n]);
    SameSound(m.book, c);
    SameAdmissible(m.book, c, m.journal[n]);
    QuietTransfers(m.book, c, m.journal[n]);
    LiveIsApply(m.book, m.journal[n]);
  }

  // In every reachable state an operation that keeps the journal quiet is one that the market may
  // handle. It is appended unless it is an order without type, side, price or symbol, and handling
  // it is appending and completing it.
  lemma HandleIsTwoSteps(m: Market, steps: seq<Step>, op: Op, symbol: string, published: bool)
    requires Reachable(m, steps, symbol, published) && m.pending.None? && Journaled(symbol, m.journal + [op])
    ensures LiveAllowed(m.book, op)
    ensures Enabled(m, Append(op)) <==> (op.New? ==>
      op.order.kind != OtherType("") && op.order.side != OtherSide("") && op.order.price != 0 && op.order.symbol != "")
    ensures var a := Market(m.book, m.journal + [op], Some(op));
      Next(a, Complete, symbol, published) == Market(Live(m.book, op), m.journal + [op], None)
  {
    hide Replays, Live, Quiet, Sound, Admissible, LiveAllowed;
    assert (m.journal + [op])[..|m.journal + [op]| - 1] == m.journal;
    JournalPrefix(symbol, m.journal + [op]);
    RecoveryIsExact(m, steps, symbol, published);
    PendingIsApplied(Market(m.book, m.journal + [op], Some(op)), symbol);
    QuietIsAllowed(m.book, op);
  }

  lemma SameAdmissible(b: Book, c: Book, op: Op)
    requires Replays(b, c)
    ensures Admissible(b, op) <==> Admissible(c, op)
  {
    assert forall id :: Lookup(b, id) == Lookup(c, id);
  }

  // So a restart hands out numbers again exactly when more deltas were published since the last
  // start than the operation in flight makes trades.
  lemma RestartReusesNumbers(m: Market, steps: seq<Step>, symbol: string, published: bool)
    requires Reachable(m, steps, symbol, published) && Journaled(symbol, m.journal)
    ensures m.book.tape <= Settled(m).tape
    ensures Next(m, Crash, symbol, published).book.seqNo < m.book.seqNo <==>
      |DeltasOf(m.book.tape)| > |TradesSince(m.book, Settled(m))|
    ensures m.pending.None? ==>
      (Next(m, Crash, symbol, published).book.seqNo < m.book.seqNo <==> DeltasOf(m.book.tape) != [])
  {
    RestartCounts(m, steps, symbol, published);
    if m.pending.None? { TradesAfter(m.book, m.book, []); }
  }

  // ---- exactly when every crash can be recovered from ----

  // The live market after a sequence of operations without a crash.
  function LiveRun(b: Book, ops: seq<Op>): Book
    decreases |ops|
  {
    if ops == [] then b else Live(LiveRun(b, ops[..|ops| - 1]), ops[|ops| - 1])
  }

  // Whenever the market stops, its journal so far replays to its book.
  ghost predicate Recoverable(symbol: string, ops: seq<Op>, published: bool) {
    forall k | 0 <= k <= |ops| ::
      Replays(LiveRun(Empty(symbol).(sink := published), ops[..k]), Run(Empty(symbol), ops[..k]))
  }

  // That is so exactly when no operation promotes anything.
  lemma RecoverableIffQuiet(symbol: string, ops: seq<Op>, published: bool)
    requires AdmissibleRun(Empty(symbol), ops)
    ensures Recoverable(symbol, ops, published) <==> Journaled(symbol, ops)
  {
    hide Replays, Quiet, LiveRun, Run, Admissible;
    if Recoverable(symbol, ops, published) {
      forall k | 0 <= k < |ops| ensures Quiet(Run(Empty(symbol), ops[..k]), ops[k]) {
        assert Replays(LiveRun(Empty(symbol).(sink := published), ops[..k]), Run(Empty(symbol), ops[..k]));
        assert Replays(LiveRun(Empty(symbol).(sink := published), ops[..k + 1]), Run(Empty(symbol), ops[..k + 1]));
        OneMore(symbol, ops, published, k);
      }
    }
    if Journaled(symbol, ops) {
      forall k | 0 <= k <= |ops|
        ensures Replays(LiveRun(Empty(symbol).(sink := published), ops[..k]), Run(Empty(symbol), ops[..k]))
      {
        QuietReplays(symbol, ops, published, k);
      }
    }
  }

  lemma OneMore(symbol: string, ops: seq<Op>, published: bool, k: nat)
    requires AdmissibleRun(Empty(symbol), ops) && k < |ops|
    requires Replays(LiveRun(Empty(symbol).(sink := published), ops[..k]), Run(Empty(symbol), ops[..k]))
    ensures Replays(LiveRun(Empty(symbol).(sink := published), ops[..k + 1]), Run(Empty(symbol), ops[..k + 1]))
            <==> Quiet(Run(Empty(symbol), ops[..k]), ops[k])
  {
    hide Replays, Quiet, Live, Apply, Admissible, Sound;
    var b, c := LiveRun(Empty(symbol).(sink := published), ops[..k]), Run(Empty(symbol), ops[..k]);
    assert ops[..k + 1][..k] == ops[..k] && ops[..k + 1][k] == ops[k];
    RunTake(Empty(symbol), ops, k);
    StartIsSound(symbol);
    RunSound(Empty(symbol), ops[..k]);
    LiveReplays(b, c, ops[k]);
  }

  lemma StartIsSound(symbol: string)
    ensures Sound(Empty(symbol))
  {
    EmptyWf(symbol);
  }

  lemma {:induction false} QuietReplays(symbol: string, ops: seq<Op>, published: bool, k: nat)
    requires Journaled(symbol, ops) && k <= |ops|
    ensures Replays(LiveRun(Empty(symbol).(sink := published), ops[..k]), Run(Empty(symbol), ops[..k]))
    decreases k
  {
    hide Replays, Quiet, Live, Apply, Admissible;
    if k == 0 {
      EmptyReplays(Empty(symbol), published);
    } else {
      QuietReplays(symbol, ops, published, k - 1);
      OneMore(symbol, ops, published, k - 1);
    }
  }
}
