// The order in which one matching pass publishes: level by level, the matches of a level first
// and then the level's one delta.
module Publishing {
  import opened Orders
  import opened Ladders
  import opened Matching
  import opened Books
  import opened Invariants
  import opened Crossings

  function PriceOf(e: Event): Px {
    match e
    case Trade(m) => m.price
    case Delta(d) => d.price
  }

  // Nothing at a price follows its delta, and if deltas are published, one follows each match.
  ghost predicate Closed(es: seq<Event>, sink: bool) {
    && (forall i, j | 0 <= i < j < |es| && es[i].Delta? :: PriceOf(es[j]) != PriceOf(es[i]))
    && (sink ==> forall i | 0 <= i < |es| && es[i].Trade? ::
          exists j | i < j < |es| :: es[j].Delta? && PriceOf(es[j]) == PriceOf(es[i]))
  }

  function News(b: Book, c: Book): seq<Event>
    requires b.tape <= c.tape
  {
    c.tape[|b.tape|..]
  }

  lemma {:induction false} RecordNews(b: Book, t: Order, f: seq<Fill>, price: Px)
    ensures var es := News(b, Record(b, t, f, price));
      |es| == |f| && forall i | 0 <= i < |es| :: es[i].Trade? && PriceOf(es[i]) == price
    decreases f
  {
    if f != [] {
      var m := MakeMatch(t, f[0].order.id, price, f[0].qty, b.seqNo + 1);
      var b1 := b.(seqNo := b.seqNo + 1, tape := b.tape + [Trade(m)]);
      RecordNews(b1, t, f[1..], price);
      var c := Record(b, t, f, price);
      assert m.price == price;
      assert c.tape == b1.tape + News(b1, c) && News(b, c) == [Trade(m)] + News(b1, c);
    }
  }

  // A pass that trades changes the queue.
  lemma {:induction false} FillsShow(t: Order, remain: Qty, q: seq<Order>)
    requires AllPositive(q) && Greedy(t, remain, q).fills != []
    ensures Greedy(t, remain, q).rest != q
    decreases q
  {
    hide Step;
    var s := Step(t, remain, q[0]);
    StepFilled(t, remain, q[0]);
    if s.rest != [] { assert (s.rest + q[1..])[0] == s.rest[0]; }
  }

  // One level: its matches, then its delta if anything changed.
  lemma LevelNews(b: Book, t: Order, remain: Qty)
    requires Wf(b) && OnBook(t.side) && SideOf(b, Opposite(t.side)) != []
    ensures var es := News(b, LevelStep(b, t, remain).0); var p := SideOf(b, Opposite(t.side))[0].price;
      && (forall i | 0 <= i < |es| :: PriceOf(es[i]) == p && (es[i].Delta? ==> i == |es| - 1))
      && (b.sink && es != [] ==> es[|es| - 1].Delta?)
  {
    hide Greedy, SumQ, Put;
    var s := Opposite(t.side);
    var level := SideOf(b, s)[0];
    var h := Greedy(t, remain, level.queue);
    var b1 := Record(b, t, h.fills, level.price);
    SidePositive(s, SideOf(b, s), 0);
    RecordNews(b, t, h.fills, level.price);
    if h.fills != [] { FillsShow(t, remain, level.queue); }
    assert b1.tape == b.tape + News(b, b1);
    var c := LevelStep(b, t, remain).0;
    if h.rest != level.queue && b.sink {
      assert News(b, c) == News(b, b1) + [c.tape[|b1.tape|]];
    }
  }

  ghost predicate PricedIn(es: seq<Event>, L: Ladder) {
    forall i | 0 <= i < |es| :: exists k | 0 <= k < |L| :: L[k].price == PriceOf(es[i])
  }

  lemma ClosedThen(es: seq<Event>, p: Px, fs: seq<Event>, L: Ladder, sink: bool)
    requires forall i | 0 <= i < |es| :: PriceOf(es[i]) == p && (es[i].Delta? ==> i == |es| - 1)
    requires sink && es != [] ==> es[|es| - 1].Delta?
    requires Closed(fs, sink) && PricedIn(fs, L) && forall k | 0 <= k < |L| :: L[k].price != p
    ensures Closed(es + fs, sink)
  {
    hide PriceOf;
    var gs := es + fs;
    forall i | 0 <= i < |gs| && gs[i].Trade? && sink
      ensures exists j | i < j < |gs| :: gs[j].Delta? && PriceOf(gs[j]) == PriceOf(gs[i])
    {
      if i < |es| {
        assert gs[|es| - 1] == es[|es| - 1];
      } else {
        var j :| i - |es| < j < |fs| && fs[j].Delta? && PriceOf(fs[j]) == PriceOf(fs[i - |es|]);
        assert gs[|es| + j] == fs[j];
      }
    }
  }

  // The whole pass.
  lemma {:induction false} PassNews(b: Book, t: Order, always: bool, remain: Qty)
    requires Wf(b) && OnBook(t.side)
    ensures var es := News(b, MatchLevels(b, t, always, remain).0);
      Closed(es, b.sink) && PricedIn(es, SideOf(b, Opposite(t.side)))
    decreases |SideOf(b, Opposite(t.side))|, remain > 0
  {
    hide LevelStep, Closed, Wf, PricedIn, PriceOf;
    var s := Opposite(t.side);
    var L := SideOf(b, s);
    if remain <= 0 || L == [] || !(always || Crosses(t, L[0].price)) {
      assert News(b, b) == [];
      NoNews(b.sink, L);
    } else {
      var (b1, r1) := LevelStep(b, t, remain);
      var c := MatchLevels(b1, t, always, r1).0;
      LevelNews(b, t, remain);
      LevelStepKeeps(b, t, remain);
      PassNews(b1, t, always, r1);
      var es, fs := News(b, b1), News(b1, c);
      NewsThen(b, b1, c);
      NextLevels(b, t, remain);
      PricedThen(es, fs, SideOf(b1, s), L);
      if r1 <= 0 {
        assert fs == [];
        NoNews(b.sink, []);
        ClosedThen(es, L[0].price, fs, [], b.sink);
      } else {
        ClosedThen(es, L[0].price, fs, SideOf(b1, s), b.sink);
      }
    }
  }

  lemma NewsThen(a: Book, b: Book, c: Book)
    requires a.tape <= b.tape && b.tape <= c.tape
    ensures a.tape <= c.tape && News(a, c) == News(a, b) + News(b, c)
  {
    assert c.tape[..|b.tape|] == b.tape;
  }

  lemma PricedThen(es: seq<Event>, fs: seq<Event>, M: Ladder, L: Ladder)
    requires L != [] && forall i | 0 <= i < |es| :: PriceOf(es[i]) == L[0].price
    requires PricedIn(fs, M) && forall k | 0 <= k < |M| :: exists i | 0 <= i < |L| :: L[i].price == M[k].price
    ensures PricedIn(es + fs, L)
  {
    hide PriceOf;
    var gs := es + fs;
    forall i | 0 <= i < |gs| ensures exists k | 0 <= k < |L| :: L[k].price == PriceOf(gs[i]) {
      if i < |es| {
        assert L[0].price == PriceOf(gs[i]);
      } else {
        var k :| 0 <= k < |M| && M[k].price == PriceOf(fs[i - |es|]);
      }
    }
  }

  lemma NoNews(sink: bool, L: Ladder)
    ensures Closed([], sink) && PricedIn([], L)
  {
  }

  // The levels after a step that leaves the taker hungry are the ones behind.
  lemma NextLevels(b: Book, t: Order, remain: Qty)
    requires Wf(b) && OnBook(t.side) && SideOf(b, Opposite(t.side)) != []
    ensures var s := Opposite(t.side); var L := SideOf(b, s); var (b1, r1) := LevelStep(b, t, remain);
      && (forall k | 0 <= k < |SideOf(b1, s)| :: exists i | 0 <= i < |L| :: L[i].price == SideOf(b1, s)[k].price)
      && (r1 > 0 ==> forall k | 0 <= k < |SideOf(b1, s)| :: SideOf(b1, s)[k].price != L[0].price)
  {
    hide Greedy, SumQ, Put;
    var s := Opposite(t.side);
    var L := SideOf(b, s);
    var h := Greedy(t, remain, L[0].queue);
    PutReplaces(s, L, 0, h.rest);
    var M := Put(s, L, L[0].price, h.rest);
    if h.rest == [] {
      assert forall k | 0 <= k < |M| :: M[k] == L[k + 1];
    }
  }
}
