// The feed and the ledger over live runs, promotion included: the callback is installed only
// after replay, so this is the path on which deltas are published.
module LiveReports {
  import opened Orders
  import opened Books
  import opened Invariants
  import opened Clashes
  import opened Runs
  import opened Moves
  import opened Plans
  import opened Feed
  import opened Ledger
  import opened Promotions
  import opened Recovery

  // From b to c the tape is numbered without a gap, and if a callback is installed the deltas
  // rebuild the aggregated book.
  ghost predicate Reported(b: Book, c: Book) {
    Numbered(b, c) && (b.sink ==> Feeds(b, c))
  }

  lemma ReportedThen(a: Book, b: Book, c: Book)
    requires Reported(a, b) && Reported(b, c)
    ensures Reported(a, c)
  {
    hide Feeds;
    NumberedThen(a, b, c);
    if a.sink { FeedsThen(a, b, c); }
  }

  lemma ReportedSelf(b: Book)
    ensures Reported(b, b)
  {
    assert b.tape[|b.tape|..] == [];
  }

  lemma LeadsReport(b: Book, c: Book, ms: seq<Move>, id: int)
    requires SidesOk(b) && Leads(b, c, b, c, ms, id)
    ensures Reported(b, c) && (VoidsOk(b) ==> VoidsOk(c))
  {
    ExecNumbers(b, ms);
    if b.sink { ExecFeeds(b, ms, id); }
    if VoidsOk(b) { ExecVoids(b, ms, id); }
  }

  lemma SoundIs(b: Book)
    requires Sound(b)
    ensures Wf(b) && SidesOk(b)
  {
  }

  lemma LimitReported(b: Book, o: Order)
    requires Sound(b)
    ensures Reported(b, HandleLimit(b, o).book)
    ensures VoidsOk(b) ==> VoidsOk(HandleLimit(b, o).book)
  {
    hide Sound, Leads, HandleLimit, Reported, VoidsOk;
    SoundIs(b);
    var ms := HandleLimitLeads(b, b, o);
    LeadsReport(b, HandleLimit(b, o).book, ms, o.id);
  }

  lemma ApplyReported(b: Book, op: Op)
    requires Sound(b) && Admissible(b, op)
    ensures Reported(b, Apply(b, op).book)
    ensures VoidsOk(b) ==> VoidsOk(Apply(b, op).book)
  {
    hide Sound, Leads, Apply, Reported, VoidsOk;
    SoundIs(b);
    var ms := ApplyLeads(b, b, op, Subject(op));
    LeadsReport(b, Apply(b, op).book, ms, Subject(op));
  }

  // ---- promotions ----

  // Volume that the promotions of one order put under an id: each accepted one in full, again.
  function PromoteOneCredit(b: Book, o: Order, ms: seq<Match>, id: int): int
    decreases ms
  {
    if ms == [] then 0
    else if !IsTriggered(o, ms[0].price) then PromoteOneCredit(b, o, ms[1..], id)
    else
      var r := HandleLimit(b, o);
      (if o.id == id && r.result.accepted then Positive(o.volume) else 0) + PromoteOneCredit(r.book, o, ms[1..], id)
  }

  function PromoteCredit(b: Book, parked: seq<Order>, ms: seq<Match>, id: int): int
    decreases parked
  {
    if parked == [] then 0
    else PromoteOneCredit(b, parked[0], ms, id) + PromoteCredit(PromoteOne(b, parked[0], ms), parked[1..], ms, id)
  }

  // What an operation on the live market newly puts under an id.
  function LiveCredit(b: Book, op: Op, id: int): int {
    var r := Apply(b, op);
    Credit(b, op, id) + if op.New? then PromoteCredit(r.book, r.book.parked, r.result.matches, id) else 0
  }

  // One walk step keeps books sound, reports what it does, and adds its credit to the balance.
  ghost predicate Accounts(b: Book, c: Book, credit: int, id: int) {
    && Sound(c) && Reported(b, c) && (VoidsOk(b) ==> VoidsOk(c))
    && Balance(c, id) == Balance(b, id) + credit
  }

  lemma AccountsThen(a: Book, b: Book, c: Book, x: int, y: int, id: int)
    requires Accounts(a, b, x, id) && Accounts(b, c, y, id)
    ensures Accounts(a, c, x + y, id)
  {
    hide Reported, Sound, Balance, VoidsOk;
    ReportedThen(a, b, c);
  }

  lemma AccountsSelf(b: Book, id: int)
    requires Sound(b)
    ensures Accounts(b, b, 0, id)
  {
    ReportedSelf(b);
  }

  lemma LimitAccounts(b: Book, o: Order, id: int)
    requires Sound(b) && !Clash(b, o)
    ensures var r := HandleLimit(b, o);
      Accounts(b, r.book, if o.id == id && r.result.accepted then Positive(o.volume) else 0, id)
  {
    hide Sound, Clash, HandleLimit, Reported, VoidsOk, Balance;
    HandleLimitSound(b, o);
    LimitReported(b, o);
    SoundIs(b);
    HandleLimitBalance(b, o, id);
  }

  lemma {:induction false} PromoteOneAccounts(b: Book, o: Order, ms: seq<Match>, id: int)
    requires Sound(b) && PromotesOne(b, o, ms)
    ensures Accounts(b, PromoteOne(b, o, ms), PromoteOneCredit(b, o, ms, id), id)
    decreases ms
  {
    hide Accounts, Sound, Clash, HandleLimit, IsTriggered;
    if ms == [] {
      AccountsSelf(b, id);
    } else if IsTriggered(o, ms[0].price) {
      var r := HandleLimit(b, o);
      var credit := if o.id == id && r.result.accepted then Positive(o.volume) else 0;
      LimitAccounts(b, o, id);
      HandleLimitSound(b, o);
      PromoteOneAccounts(r.book, o, ms[1..], id);
      AccountsThen(b, r.book, PromoteOne(b, o, ms), credit, PromoteOneCredit(r.book, o, ms[1..], id), id);
    } else {
      PromoteOneAccounts(b, o, ms[1..], id);
    }
  }

  lemma AccountsSound(b: Book, c: Book, credit: int, id: int)
    requires Accounts(b, c, credit, id)
    ensures Sound(c)
  {
  }

  lemma {:induction false} PromoteAccounts(b: Book, parked: seq<Order>, ms: seq<Match>, id: int)
    requires Sound(b) && Promotes(b, parked, ms)
    ensures Accounts(b, Promote(b, parked, ms), PromoteCredit(b, parked, ms, id), id)
    decreases parked
  {
    hide Accounts, Sound, PromotesOne, PromoteOne, PromoteOneCredit;
    if parked == [] {
      AccountsSelf(b, id);
    } else {
      var b1 := PromoteOne(b, parked[0], ms);
      var x, y := PromoteOneCredit(b, parked[0], ms, id), PromoteCredit(b1, parked[1..], ms, id);
      PromoteOneAccounts(b, parked[0], ms, id);
      AccountsSound(b, b1, x, id);
      PromoteAccounts(b1, parked[1..], ms, id);
      AccountsThen(b, b1, Promote(b, parked, ms), x, y, id);
    }
  }

  lemma {:induction false} NoMatchNoCredit(b: Book, parked: seq<Order>, id: int)
    ensures PromoteCredit(b, parked, [], id) == 0 && Promote(b, parked, []) == b
    decreases parked
  {
    if parked != [] { NoMatchNoCredit(b, parked[1..], id); }
  }

  lemma LiveAccounts(b: Book, op: Op, id: int)
    requires Sound(b) && LiveAllowed(b, op)
    ensures Accounts(b, Live(b, op), LiveCredit(b, op, id), id)
  {
    var r := Apply(b, op);
    assert Accounts(b, r.book, Credit(b, op, id), id) by { ApplyAccounts(b, op, id); }
    if op.New? {
      hide Accounts, Sound, Submit, Promotes, Promote, PromoteCredit, Credit, Admissible;
      AccountsSound(b, r.book, Credit(b, op, id), id);
      PromoteAccounts(r.book, r.book.parked, r.result.matches, id);
      RefusedHasNoMatches(b, op.order);
      NoMatchNoCredit(r.book, r.book.parked, id);
      AccountsThen(b, r.book, Promote(r.book, r.book.parked, r.result.matches),
                   Credit(b, op, id), PromoteCredit(r.book, r.book.parked, r.result.matches, id), id);
    }
  }

  lemma ApplyAccounts(b: Book, op: Op, id: int)
    requires Sound(b) && Admissible(b, op)
    ensures Accounts(b, Apply(b, op).book, Credit(b, op, id), id)
  {
    hide Sound, Apply, Admissible, Reported, VoidsOk, Balance, Credit;
    ApplySound(b, op);
    ApplyReported(b, op);
    SoundIs(b);
    ApplyBalance(b, op, id);
  }

  // ---- live runs ----

  ghost predicate AllowedRun(b: Book, ops: seq<Op>) {
    forall k | 0 <= k < |ops| :: LiveAllowed(LiveRun(b, ops[..k]), ops[k])
  }

  function LiveCredits(b: Book, ops: seq<Op>, id: int): int
    decreases |ops|
  {
    if ops == [] then 0
    else
      var n := |ops| - 1;
      LiveCredits(b, ops[..n], id) + LiveCredit(LiveRun(b, ops[..n]), ops[n], id)
  }

  // Over every allowed live run the books are sound, the numbers have no gap, the deltas rebuild
  // the aggregated book, and per id volume is conserved.
  lemma {:induction false} LiveRunAccounts(b: Book, ops: seq<Op>, id: int)
    requires Sound(b) && AllowedRun(b, ops)
    ensures Accounts(b, LiveRun(b, ops), LiveCredits(b, ops, id), id)
    decreases |ops|
  {
    hide Accounts, Sound, Live, LiveCredit, LiveAllowed;
    if ops == [] {
      AccountsSelf(b, id);
    } else {
      var n := |ops| - 1;
      var c := LiveRun(b, ops[..n]);
      assert forall k | 0 <= k < n :: ops[..n][..k] == ops[..k];
      LiveRunAccounts(b, ops[..n], id);
      AccountsSound(b, c, LiveCredits(b, ops[..n], id), id);
      assert LiveAllowed(c, ops[n]);
      LiveAccounts(c, ops[n], id);
      AccountsThen(b, c, LiveRun(b, ops), LiveCredits(b, ops[..n], id), LiveCredit(c, ops[n], id), id);
    }
  }

  // The feed of a live market: numbers without a gap, deltas that rebuild the aggregated book,
  // and a zero only for a level that is there.
  lemma LiveRunFeeds(b: Book, ops: seq<Op>)
    requires Sound(b) && AllowedRun(b, ops)
    ensures Numbered(b, LiveRun(b, ops)) && (b.sink ==> Feeds(b, LiveRun(b, ops)))
  {
    hide LiveRun, Sound, Numbered, Feeds, Balance;
    LiveRunAccounts(b, ops, 0);
  }

  // What is filled under an id never exceeds what was submitted and promoted under it.
  lemma LiveNeverOverfilled(symbol: string, ops: seq<Op>, published: bool, id: int)
    requires AllowedRun(Empty(symbol).(sink := published), ops)
    ensures var e := Empty(symbol).(sink := published);
      Filled(LiveRun(e, ops), id) <= LiveCredits(e, ops, id)
  {
    hide LiveRun, LiveCredits, AllowedRun;
    var e := Empty(symbol).(sink := published);
    EmptyWf(symbol);
    SinkKeeps(Empty(symbol), published);
    LiveRunAccounts(e, ops, id);
    FilledWithin(LiveRun(e, ops), id);
  }
}
