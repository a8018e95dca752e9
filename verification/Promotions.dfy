// The promotion of queued stop orders on the live path: exactly when it does nothing, and
// exactly when it keeps the invariant.
module Promotions {
  import opened Orders
  import opened Ladders
  import opened Matching
  import opened Books
  import opened Invariants
  import opened Crossings
  import opened Tapes
  import opened Clashes
  import opened Runs

  // The queue of stop orders is walked against the matches just made; a triggered order is
  // submitted as a limit order, and stays queued.
  function PromoteOne(b: Book, o: Order, matches: seq<Match>): (b': Book)
    ensures b.tape <= b'.tape
    decreases matches
  {
    if matches == [] then b
    else PromoteOne(if IsTriggered(o, matches[0].price) then HandleLimit(b, o).book else b, o, matches[1..])
  }

  function Promote(b: Book, parked: seq<Order>, matches: seq<Match>): (b': Book)
    ensures b.tape <= b'.tape
    decreases parked
  {
    if parked == [] then b else Promote(PromoteOne(b, parked[0], matches), parked[1..], matches)
  }

  // What the market does with a journaled operation while it is live.
  function Live(b: Book, op: Op): (b': Book)
    ensures b.tape <= b'.tape
  {
    var r := Apply(b, op);
    if op.New? && r.result.accepted && r.result.matches != []
    then Promote(r.book, r.book.parked, r.result.matches)
    else r.book
  }

  // ---- a submission leaves a trace unless it is refused or empty ----

  // The limit order o does nothing to the book: it is empty, or refused.
  predicate Harmless(b: Book, o: Order) {
    || o.volume <= 0
    || (o.tif.PostOnly? && WouldCross(b, o))
    || (o.tif.FOK? && !CanFullyFill(b, o))
  }

  function Ones(): Order -> int { (o: Order) => 1 }

  lemma {:induction false} OnesCount(q: seq<Order>)
    ensures SumQ(q, Ones()) == |q|
  {
    if q != [] { OnesCount(q[1..]); }
  }

  // Trades and withdrawals, doubled, and resting orders. A step of matching records one of the
  // former and takes at most one of the latter, so it never falls.
  function Trace(b: Book): int {
    2 * |TradesOf(b.tape)| + 2 * |b.voids| + SumL(b.bids, Ones()) + SumL(b.asks, Ones())
  }

  lemma StepTraces(t: Order, remain: Qty, r: Order)
    ensures var h := Step(t, remain, r); |h.fills| + |h.cuts| >= 1 && |h.rest| <= 1
  {
  }

  lemma {:induction false} GreedyTraces(t: Order, remain: Qty, q: seq<Order>)
    ensures var h := Greedy(t, remain, q);
      2 * |h.fills| + 2 * |h.cuts| + |h.rest| >= |q| + if remain > 0 && q != [] then 1 else 0
    decreases q
  {
    hide Step;
    if remain > 0 && q != [] {
      var h := Step(t, remain, q[0]);
      StepTraces(t, remain, q[0]);
      if h.rest == [] { GreedyTraces(t, h.remain, q[1..]); }
    }
  }

  lemma {:induction false} RecordTrades(b: Book, t: Order, f: seq<Fill>, price: Px)
    ensures |TradesOf(Record(b, t, f, price).tape)| == |TradesOf(b.tape)| + |f|
    decreases f
  {
    if f != [] {
      var m := MakeMatch(t, f[0].order.id, price, f[0].qty, b.seqNo + 1);
      TapeSnoc(b.tape, Trade(m));
      RecordTrades(b.(seqNo := b.seqNo + 1, tape := b.tape + [Trade(m)]), t, f[1..], price);
    }
  }

  lemma EmitTrace(b: Book, s: Side, p: Px, qty: Qty)
    ensures Trace(Emit(b, s, p, qty)) == Trace(b)
  {
    if b.sink { TapeSnoc(b.tape, Emit(b, s, p, qty).tape[|b.tape|]); }
  }

  lemma LevelStepTraces(b: Book, t: Order, remain: Qty)
    requires SidesOk(b) && OnBook(t.side) && SideOf(b, Opposite(t.side)) != [] && remain > 0
    ensures Trace(LevelStep(b, t, remain).0) > Trace(b)
  {
    hide Greedy, TradesOf, SumL, SumQ, Record, Put, Ones;
    var s := Opposite(t.side);
    var L := SideOf(b, s);
    var level := L[0];
    var h := Greedy(t, remain, level.queue);
    SidePositive(s, L, 0);
    QueueAtIndex(s, L, 0);
    GreedyTraces(t, remain, level.queue);
    RecordTrades(b, t, h.fills, level.price);
    SumPut(s, L, level.price, h.rest, Ones());
    OnesCount(h.rest);
    OnesCount(level.queue);
    var b1 := Record(b, t, h.fills, level.price).(voids := b.voids + h.cuts);
    var b2 := SetSide(b1, s, Put(s, L, level.price, h.rest));
    EmitTrace(b2, s, level.price, SumQ(h.rest, Volumes()));
  }

  lemma {:induction false} MatchingTraces(b: Book, t: Order, always: bool, remain: Qty)
    requires SidesOk(b) && OnBook(t.side)
    ensures var (b1, r) := MatchLevels(b, t, always, remain);
      Trace(b1) > Trace(b) || (b1 == b && r == remain)
    decreases |SideOf(b, Opposite(t.side))|, remain > 0
  {
    hide Trace, SidesOk, LevelStep;
    var L := SideOf(b, Opposite(t.side));
    if remain > 0 && L != [] && (always || Crosses(t, L[0].price)) {
      var (b1, r1) := LevelStep(b, t, remain);
      LevelStepTraces(b, t, remain);
      LevelStepSides(b, t, remain);
      MatchingTraces(b1, t, always, r1);
    }
  }

  lemma RestTraces(b: Book, o: Order)
    requires SidesOk(b) && o.volume > 0
    ensures Trace(Rest(b, o)) > Trace(b)
  {
    hide TradesOf, SumQ, Put;
    if OnBook(o.side) {
      var L := SideOf(b, o.side);
      var q := QueueAt(L, o.price);
      SumPut(o.side, L, o.price, q + [o], Ones());
      OnesCount(q);
      OnesCount(q + [o]);
      EmitTrace(SetSide(b, o.side, Put(o.side, L, o.price, q + [o])), o.side, o.price, SumQ(q + [o], Volumes()));
    }
  }

  // A limit order changes the book exactly when it is not harmless, and then for good.
  lemma HandleLimitTraces(b: Book, o: Order)
    requires SidesOk(b)
    ensures Harmless(b, o) ==> HandleLimit(b, o).book == b
    ensures !Harmless(b, o) ==> Trace(HandleLimit(b, o).book) > Trace(b)
  {
    hide Trace, SidesOk, MatchLevels, CanFullyFill, WouldCross, Rest;
    var (b1, r) := MatchTaker(b, o, false);
    if o.volume <= 0 {
      EmptyOrder(b, o);
    } else {
      if OnBook(o.side) {
        MatchingTraces(b, o, false, o.volume);
        MatchingSides(b, o);
      }
      WithdrawTraces(b1, o, r);
      if r > 0 { RestTraces(b1, o.(volume := r)); }
    }
  }

  lemma EmptyOrder(b: Book, o: Order)
    requires o.volume <= 0
    ensures MatchTaker(b, o, false) == (b, o.volume)
  {
  }

  lemma MatchingSides(b: Book, o: Order)
    requires SidesOk(b) && OnBook(o.side)
    ensures SidesOk(MatchTaker(b, o, false).0)
  {
    SidesRanked(b);
    MatchingIsMaximal(b, o, false, o.volume);
  }

  lemma WithdrawTraces(b: Book, o: Order, qty: Qty)
    ensures qty > 0 ==> Trace(Withdraw(b, o, qty)) > Trace(b)
    ensures qty <= 0 ==> Withdraw(b, o, qty) == b
  {
  }

  // ---- what promotion keeps in any case ----

  lemma {:induction false} PromoteOneLadders(b: Book, o: Order, ms: seq<Match>)
    requires InOrder(b)
    ensures InOrder(PromoteOne(b, o, ms)) && (SidesOk(b) ==> SidesOk(PromoteOne(b, o, ms)))
    decreases ms
  {
    hide InOrder, SidesOk, HandleLimit, IsTriggered;
    if ms != [] {
      HandleLimitLadders(b, o);
      PromoteOneLadders(if IsTriggered(o, ms[0].price) then HandleLimit(b, o).book else b, o, ms[1..]);
    }
  }

  lemma {:induction false} PromoteLadders(b: Book, parked: seq<Order>, ms: seq<Match>)
    requires InOrder(b)
    ensures InOrder(Promote(b, parked, ms)) && (SidesOk(b) ==> SidesOk(Promote(b, parked, ms)))
    decreases parked
  {
    hide InOrder, SidesOk;
    if parked != [] {
      PromoteOneLadders(b, parked[0], ms);
      PromoteLadders(PromoteOne(b, parked[0], ms), parked[1..], ms);
    }
  }

  // ---- exactly when promotion does nothing ----

  lemma {:induction false} PromoteOneTraces(b: Book, o: Order, ms: seq<Match>)
    requires Laddered(b)
    ensures Laddered(PromoteOne(b, o, ms))
    ensures Trace(PromoteOne(b, o, ms)) > Trace(b) || PromoteOne(b, o, ms) == b
    ensures PromoteOne(b, o, ms) == b <==> forall m | m in ms && IsTriggered(o, m.price) :: Harmless(b, o)
    decreases ms
  {
    hide Trace, HandleLimit, Harmless, IsTriggered, Uncrossed, SidesOk;
    if ms != [] {
      assert forall m | m in ms :: m == ms[0] || m in ms[1..];
      assert ms[0] in ms && forall m | m in ms[1..] :: m in ms;
      var b1 := if IsTriggered(o, ms[0].price) then HandleLimit(b, o).book else b;
      HandleLimitTraces(b, o);
      LadderedInOrder(b);
      HandleLimitLadders(b, o);
      PromoteOneTraces(b1, o, ms[1..]);
    }
  }

  // Every triggering match would promote a harmless order.
  ghost predicate AllHarmless(b: Book, parked: seq<Order>, ms: seq<Match>) {
    forall o, m | o in parked && m in ms && IsTriggered(o, m.price) :: Harmless(b, o)
  }

  lemma {:induction false} PromoteTraces(b: Book, parked: seq<Order>, ms: seq<Match>)
    requires Laddered(b)
    ensures Laddered(Promote(b, parked, ms))
    ensures Trace(Promote(b, parked, ms)) > Trace(b) || Promote(b, parked, ms) == b
    ensures Promote(b, parked, ms) == b <==> AllHarmless(b, parked, ms)
    decreases parked
  {
    hide Trace, Harmless, IsTriggered, Uncrossed, SidesOk;
    if parked != [] {
      assert forall o | o in parked :: o == parked[0] || o in parked[1..];
      assert parked[0] in parked && forall o | o in parked[1..] :: o in parked;
      PromoteOneTraces(b, parked[0], ms);
      PromoteTraces(PromoteOne(b, parked[0], ms), parked[1..], ms);
    }
  }

  // Every stop order that the matches of this operation trigger would be refused or is empty.
  ghost predicate Quiet(b: Book, op: Op) {
    op.New? ==> AllHarmless(Apply(b, op).book, Apply(b, op).book.parked, Apply(b, op).result.matches)
  }

  // The live path is the plain operation exactly when that holds; otherwise the difference is
  // there to stay.
  lemma LiveIsApply(b: Book, op: Op)
    requires Sound(b)
    ensures Live(b, op) == Apply(b, op).book <==> Quiet(b, op)
    ensures Trace(Live(b, op)) > Trace(Apply(b, op).book) || Live(b, op) == Apply(b, op).book
  {
    hide Trace, Submit, Harmless;
    if op.New? {
      LadderedInOrder(b);
      SubmitLadders(b, op.order);
      RefusedHasNoMatches(b, op.order);
      var r := Apply(b, op);
      PromoteTraces(r.book, r.book.parked, r.result.matches);
    }
  }

  lemma RefusedHasNoMatches(b: Book, o: Order)
    ensures !Submit(b, o).result.accepted ==> Submit(b, o).result.matches == []
  {
  }

  // ---- exactly when promotion keeps the invariant ----

  // No triggered order clashes with a resting id when its turn comes.
  predicate PromotesOne(b: Book, o: Order, ms: seq<Match>)
    decreases ms
  {
    ms == [] ||
    if IsTriggered(o, ms[0].price) then !Clash(b, o) && PromotesOne(HandleLimit(b, o).book, o, ms[1..])
    else PromotesOne(b, o, ms[1..])
  }

  predicate Promotes(b: Book, parked: seq<Order>, ms: seq<Match>)
    decreases parked
  {
    parked == [] || (PromotesOne(b, parked[0], ms) && Promotes(PromoteOne(b, parked[0], ms), parked[1..], ms))
  }

  // Every state of the walk is sound exactly when no triggered order clashes.
  lemma {:induction false} PromotesOneExact(b: Book, o: Order, ms: seq<Match>)
    requires Sound(b)
    ensures (forall k | 0 <= k <= |ms| :: Sound(PromoteOne(b, o, ms[..k]))) <==> PromotesOne(b, o, ms)
    decreases ms
  {
    hide Sound, HandleLimit, Clash;
    if ms == [] {
      assert ms[..0] == [];
    } else {
      var b1 := if IsTriggered(o, ms[0].price) then HandleLimit(b, o).book else b;
      HandleLimitSound(b, o);
      assert forall k | 1 <= k <= |ms| :: ms[..k][0] == ms[0] && ms[..k][1..] == ms[1..][..k - 1];
      assert forall k | 1 <= k <= |ms| :: PromoteOne(b, o, ms[..k]) == PromoteOne(b1, o, ms[1..][..k - 1]);
      assert PromoteOne(b, o, ms[..0]) == b && ms[1..][..0] == [] && PromoteOne(b1, o, []) == b1;
      if Sound(b1) { PromotesOneExact(b1, o, ms[1..]); }
      assert forall k | 0 <= k <= |ms| - 1 :: ms[1..][..k] == ms[..k + 1][1..];
      if forall k | 0 <= k <= |ms| :: Sound(PromoteOne(b, o, ms[..k])) {
        assert Sound(PromoteOne(b, o, ms[..1]));
        forall k | 0 <= k <= |ms| - 1 ensures Sound(PromoteOne(b1, o, ms[1..][..k])) {
          assert Sound(PromoteOne(b, o, ms[..k + 1]));
        }
      }
    }
  }

  // The state of the walk at match k of queued order i.
  function WalkState(b: Book, parked: seq<Order>, ms: seq<Match>, i: nat, k: nat): Book
    requires i < |parked| && k <= |ms|
  {
    PromoteOne(Promote(b, parked[..i], ms), parked[i], ms[..k])
  }

  lemma WalkStarts(b: Book, parked: seq<Order>, ms: seq<Match>, k: nat)
    requires parked != [] && k <= |ms|
    ensures WalkState(b, parked, ms, 0, k) == PromoteOne(b, parked[0], ms[..k])
  {
    assert parked[..0] == [];
  }

  lemma WalkGoesOn(b: Book, parked: seq<Order>, ms: seq<Match>, i: nat, k: nat)
    requires parked != [] && i < |parked| - 1 && k <= |ms|
    ensures WalkState(b, parked, ms, i + 1, k) == WalkState(PromoteOne(b, parked[0], ms), parked[1..], ms, i, k)
  {
    assert parked[..i + 1][0] == parked[0] && parked[..i + 1][1..] == parked[1..][..i];
  }

  lemma {:induction false} PromotesExact(b: Book, parked: seq<Order>, ms: seq<Match>)
    requires Sound(b)
    ensures (forall i, k | 0 <= i < |parked| && 0 <= k <= |ms| :: Sound(WalkState(b, parked, ms, i, k)))
            <==> Promotes(b, parked, ms)
    ensures Promotes(b, parked, ms) ==> Sound(Promote(b, parked, ms))
    decreases parked
  {
    hide Sound, WalkState;
    if parked != [] {
      var b1 := PromoteOne(b, parked[0], ms);
      PromotesOneExact(b, parked[0], ms);
      assert ms[..|ms|] == ms;
      forall k | 0 <= k <= |ms| ensures WalkState(b, parked, ms, 0, k) == PromoteOne(b, parked[0], ms[..k]) {
        WalkStarts(b, parked, ms, k);
      }
      forall i, k | 0 <= i < |parked| - 1 && 0 <= k <= |ms|
        ensures WalkState(b, parked, ms, i + 1, k) == WalkState(b1, parked[1..], ms, i, k)
      {
        WalkGoesOn(b, parked, ms, i, k);
      }
      if Sound(b1) { PromotesExact(b1, parked[1..], ms); }
      assert forall i, k | 1 <= i < |parked| && 0 <= k <= |ms| ::
        WalkState(b, parked, ms, i, k) == WalkState(b1, parked[1..], ms, i - 1, k);
    }
  }

  // What the live market needs of an operation to keep the invariant throughout.
  predicate LiveAllowed(b: Book, op: Op) {
    && Admissible(b, op)
    && (op.New? ==> Promotes(Apply(b, op).book, Apply(b, op).book.parked, Apply(b, op).result.matches))
  }

  lemma {:induction false} HarmlessPromotesOne(b: Book, o: Order, ms: seq<Match>)
    requires Sound(b) && forall m | m in ms && IsTriggered(o, m.price) :: Harmless(b, o)
    ensures PromotesOne(b, o, ms) && PromoteOne(b, o, ms) == b
    decreases ms
  {
    hide Sound, HandleLimit, Harmless, Clash, IsTriggered;
    if ms != [] {
      assert ms[0] in ms && forall m | m in ms[1..] :: m in ms;
      if IsTriggered(o, ms[0].price) {
        SoundSides(b);
        HandleLimitTraces(b, o);
        HandleLimitSound(b, o);
      }
      HarmlessPromotesOne(b, o, ms[1..]);
    }
  }

  lemma SoundSides(b: Book)
    requires Sound(b)
    ensures SidesOk(b)
  {
  }

  lemma {:induction false} HarmlessPromotes(b: Book, parked: seq<Order>, ms: seq<Match>)
    requires Sound(b) && AllHarmless(b, parked, ms)
    ensures Promotes(b, parked, ms)
    decreases parked
  {
    hide Sound, Harmless, IsTriggered, PromotesOne;
    if parked != [] {
      assert parked[0] in parked && forall o | o in parked[1..] :: o in parked;
      HarmlessPromotesOne(b, parked[0], ms);
      HarmlessPromotes(b, parked[1..], ms);
    }
  }

  // A quiet admissible operation is one that the live market may handle.
  lemma QuietIsAllowed(b: Book, op: Op)
    requires Sound(b) && Admissible(b, op) && Quiet(b, op)
    ensures LiveAllowed(b, op)
  {
    hide Sound, Apply, Admissible, AllHarmless, Promotes;
    ApplySound(b, op);
    if op.New? {
      var r := Apply(b, op);
      HarmlessPromotes(r.book, r.book.parked, r.result.matches);
    }
  }

  lemma LiveSound(b: Book, op: Op)
    requires Sound(b) && LiveAllowed(b, op)
    ensures Sound(Live(b, op))
  {
    hide Sound, Apply, Admissible, Promotes, Promote;
    ApplySound(b, op);
    if op.New? {
      var r := Apply(b, op);
      PromotesExact(r.book, r.book.parked, r.result.matches);
    }
  }

  lemma LimitRests(b: Book, o: Order)
    requires OnBook(o.side) && o.volume > 0 && !o.tif.IOC? && !o.tif.FOK? && !WouldCross(b, o)
    ensures HandleLimit(b, o).book == Rest(b, o) && !WouldCross(Rest(b, o), o)
  {
  }

  // The walk does not stop at an order's first trigger: two matches that trigger an order which
  // meets nothing opposite make it clash with itself.
  lemma PromotedTwice(b: Book, o: Order, m: Match, n: Match)
    requires Sound(b) && OnBook(o.side) && o.volume > 0 && !Resting(b, o.id) && !WouldCross(b, o)
    requires !o.tif.IOC? && !o.tif.FOK? && IsTriggered(o, m.price) && IsTriggered(o, n.price)
    ensures !PromotesOne(b, o, [m, n]) && !Sound(PromoteOne(b, o, [m, n]))
  {
    hide HandleLimit, Rest, Clash, WouldCross, IsTriggered;
    var b1 := Rest(b, o);
    LimitRests(b, o);
    LimitRests(b1, o);
    assert [m, n][1..] == [n] && [n][1..] == [];
    assert PromoteOne(Rest(b1, o), o, []) == Rest(b1, o);
    RestingIffCounted(b, o.id);
    RestingIffCounted(b1, o.id);
    RestKeeps(b, o);
    RestKeeps(b1, o);
    FreeNeverClashes(b, o);
    HandleLimitSound(b, o);
    HandleLimitSound(b1, o);
  }
}
