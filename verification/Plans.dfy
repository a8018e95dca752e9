// The moves behind each operation. Two books with the same ladders make the same moves.
module Plans {
  import opened Orders
  import opened Ladders
  import opened Matching
  import opened Books
  import opened Invariants
  import opened Moves

  lemma {:induction false} RecordLeads(b: Book, c: Book, t: Order, fills: seq<Fill>, price: Px, id: int)
    returns (ms: seq<Move>)
    requires Same(b, c)
    ensures Leads(b, Record(b, t, fills, price), c, Record(c, t, fills, price), ms, id)
    decreases fills
  {
    if fills == [] {
      ms := [];
      LeadsNowhere(b, c, id);
    } else {
      var m := Print(t, fills[0].order.id, price, fills[0].qty);
      LeadsOne(b, c, m, id);
      var ns := RecordLeads(Do(b, m), Do(c, m), t, fills[1..], price, id);
      LeadsThen(b, Do(b, m), Record(b, t, fills, price), c, Do(c, m), Record(c, t, fills, price), [m], ns, id);
      ms := [m] + ns;
    }
  }

  lemma {:induction false} CutsLead(b: Book, c: Book, cuts: seq<Fill>, id: int) returns (ms: seq<Move>)
    requires Same(b, c) && NoNegative(cuts)
    ensures Leads(b, b.(voids := b.voids + cuts), c, c.(voids := c.voids + cuts), ms, id)
    decreases cuts
  {
    if cuts == [] {
      ms := [];
      assert b.voids + cuts == b.voids && c.voids + cuts == c.voids;
      LeadsNowhere(b, c, id);
    } else {
      var m := Cut(cuts[0]);
      LeadsOne(b, c, m, id);
      var ns := CutsLead(Do(b, m), Do(c, m), cuts[1..], id);
      assert b.voids + cuts == b.voids + [cuts[0]] + cuts[1..];
      assert c.voids + cuts == c.voids + [cuts[0]] + cuts[1..];
      LeadsThen(b, Do(b, m), b.(voids := b.voids + cuts), c, Do(c, m), c.(voids := c.voids + cuts), [m], ns, id);
      ms := [m] + ns;
    }
  }

  lemma LevelStepLeads(b: Book, c: Book, t: Order, remain: Qty, id: int) returns (ms: seq<Move>)
    requires Same(b, c) && Wf(b) && OnBook(t.side) && SideOf(b, Opposite(t.side)) != []
    ensures Leads(b, LevelStep(b, t, remain).0, c, LevelStep(c, t, remain).0, ms, id)
    ensures LevelStep(b, t, remain).1 == LevelStep(c, t, remain).1
  {
    var s := Opposite(t.side);
    var L := SideOf(b, s);
    var level := L[0];
    var h := Greedy(t, remain, level.queue);
    QueueAtIndex(s, L, 0);
    assert QueueOk(s, level.price, QueueAt(L, level.price));
    var b1, c1 := Record(b, t, h.fills, level.price), Record(c, t, h.fills, level.price);
    var b2, c2 := b1.(voids := b.voids + h.cuts), c1.(voids := c.voids + h.cuts);
    var rs := RecordLeads(b, c, t, h.fills, level.price, id);
    GreedyCuts(t, remain, level.queue);
    var cs := CutsLead(b1, c1, h.cuts, id);
    LeadsThen(b, b1, b2, c, c1, c2, rs, cs, id);
    if h.rest == level.queue {
      PutSame(s, L, level.price);
      ms := rs + cs;
    } else {
      var m := Quote(s, level.price, h.rest);
      GreedyQueueOk(t, remain, level.queue, s, level.price);
      GreedyLowers(t, remain, level.queue);
      QueueDistinct(b, s, level.price);
      IdSubGreedy(t, remain, level.queue);
      LeadsOne(b2, c2, m, id);
      LeadsThen(b, b2, Do(b2, m), c, c2, Do(c2, m), rs + cs, [m], id);
      ms := rs + cs + [m];
    }
  }

  lemma {:induction false} MatchLevelsLeads(b: Book, c: Book, t: Order, always: bool, remain: Qty, id: int)
    returns (ms: seq<Move>)
    requires Same(b, c) && Wf(b) && OnBook(t.side)
    ensures Leads(b, MatchLevels(b, t, always, remain).0, c, MatchLevels(c, t, always, remain).0, ms, id)
    ensures MatchLevels(b, t, always, remain).1 == MatchLevels(c, t, always, remain).1
    decreases |SideOf(b, Opposite(t.side))|, remain > 0
  {
    var L := SideOf(b, Opposite(t.side));
    if remain <= 0 || L == [] || !(always || Crosses(t, L[0].price)) {
      ms := [];
      LeadsNowhere(b, c, id);
    } else {
      var b1, c1, r1 := LevelStep(b, t, remain).0, LevelStep(c, t, remain).0, LevelStep(b, t, remain).1;
      var ns := LevelStepLeads(b, c, t, remain, id);
      LevelStepKeeps(b, t, remain);
      var os := MatchLevelsLeads(b1, c1, t, always, r1, id);
      LeadsThen(b, b1, MatchLevels(b, t, always, remain).0, c, c1, MatchLevels(c, t, always, remain).0, ns, os, id);
      ms := ns + os;
    }
  }

  lemma MatchTakerLeads(b: Book, c: Book, t: Order, always: bool, id: int) returns (ms: seq<Move>)
    requires Same(b, c) && Wf(b)
    ensures Leads(b, MatchTaker(b, t, always).0, c, MatchTaker(c, t, always).0, ms, id)
    ensures MatchTaker(b, t, always).1 == MatchTaker(c, t, always).1
  {
    if OnBook(t.side) {
      ms := MatchLevelsLeads(b, c, t, always, t.volume, id);
    } else {
      ms := [];
      LeadsNowhere(b, c, id);
    }
  }

  lemma WithdrawLeads(b: Book, c: Book, o: Order, qty: Qty, id: int) returns (ms: seq<Move>)
    requires Same(b, c)
    ensures Leads(b, Withdraw(b, o, qty), c, Withdraw(c, o, qty), ms, id)
  {
    ms := CutsLead(b, c, if qty > 0 then [Fill(o, qty)] else [], id);
    assert qty <= 0 ==> b.voids + [] == b.voids && c.voids + [] == c.voids;
  }

  lemma RestLeads(b: Book, c: Book, o: Order) returns (ms: seq<Move>)
    requires Same(b, c) && Wf(b) && o.volume > 0
    ensures Leads(b, Rest(b, o), c, Rest(c, o), ms, o.id)
  {
    if OnBook(o.side) {
      var q := QueueAt(SideOf(b, o.side), o.price);
      var m := Quote(o.side, o.price, q + [o]);
      assert QueueOk(o.side, o.price, q);
      assert (q + [o])[..|q|] == q;
      SumConcat(q, [o], Volumes());
      assert SumQ([o], Volumes()) == o.volume by { assert [o][1..] == []; }
      LeadsOne(b, c, m, o.id);
      ms := [m];
    } else {
      ms := WithdrawLeads(b, c, o, o.volume, o.id);
    }
  }

  // The queue that cancelling writes back.
  lemma CancelledQueue(b: Book, x: int)
    requires Wf(b) && Resting(b, x)
    ensures var o := Lookup(b, x).value; var q := QueueAt(SideOf(b, o.side), o.price); var r := Without(q, x);
      OnBook(o.side) && o.volume > 0 && QueueOk(o.side, o.price, r) && IdSub(r, q)
      && SumQ(r, Volumes()) == SumQ(q, Volumes()) - o.volume
  {
    LookupLocates(b, x);
    var o := Lookup(b, x).value;
    var q := QueueAt(SideOf(b, o.side), o.price);
    assert QueueOk(o.side, o.price, q);
    QueueDistinct(b, o.side, o.price);
    IdSubWithout(q, IndexOf(q, x));
    SumRemove(q, IndexOf(q, x), Volumes());
  }

  lemma CancelLeads(b: Book, c: Book, x: int, id: int) returns (ms: seq<Move>)
    requires Same(b, c) && Wf(b)
    ensures Leads(b, Cancel(b, x).0, c, Cancel(c, x).0, ms, id)
    ensures Cancel(b, x).1 == Cancel(c, x).1
  {
    hide Leads, IdSub, Wf, QueueOk, Without, Put, SumQ;
    if Resting(b, x) {
      CancelledQueue(b, x);
      var o := Lookup(b, x).value;
      var q := QueueAt(SideOf(b, o.side), o.price);
      var cut, quote := Cut(Fill(o, o.volume)), Quote(o.side, o.price, Without(q, x));
      LeadsOne(b, c, cut, id);
      LeadsOne(Do(b, cut), Do(c, cut), quote, id);
      LeadsThen(b, Do(b, cut), Cancel(b, x).0, c, Do(c, cut), Cancel(c, x).0, [cut], [quote], id);
      ms := [cut] + [quote];
    } else {
      ms := [];
      LeadsNowhere(b, c, id);
    }
  }

  lemma ReduceLeads(b: Book, c: Book, x: int, v: Qty, id: int) returns (ms: seq<Move>)
    requires Same(b, c) && Wf(b) && v >= 0
    ensures Leads(b, ReduceVolume(b, x, v).0, c, ReduceVolume(c, x, v).0, ms, id)
    ensures ReduceVolume(b, x, v).1 == ReduceVolume(c, x, v).1
  {
    hide Leads, Wf, IdSub, QueueOk, Put, SumQ, Books.Cancel, LookupIn, Resized;
    if v == 0 {
      ms := CancelLeads(b, c, x, id);
    } else if Resting(b, x) && v < Lookup(b, x).value.volume {
      ReducedQueue(b, x, v);
      var o := Lookup(b, x).value;
      var q := QueueAt(SideOf(b, o.side), o.price);
      IdSubResized(q, IndexOf(q, x), v);
      SumUpdate(q, IndexOf(q, x), q[IndexOf(q, x)].(volume := v), Volumes());
      var cut, quote := Cut(Fill(o, o.volume - v)), Quote(o.side, o.price, Resized(q, x, v));
      LeadsOne(b, c, cut, id);
      LeadsOne(Do(b, cut), Do(c, cut), quote, id);
      LeadsThen(b, Do(b, cut), ReduceVolume(b, x, v).0, c, Do(c, cut), ReduceVolume(c, x, v).0, [cut], [quote], id);
      ms := [cut] + [quote];
    } else {
      ms := [];
      LeadsNowhere(b, c, id);
    }
  }

  // The two outcomes agree on everything but the sequence numbers in the matches.
  predicate Agree(r: Outcome, s: Outcome) {
    r.result.accepted == s.result.accepted && r.result.reason == s.result.reason
  }

  // The checks before matching read the ladders only.
  lemma ChecksAgree(b: Book, c: Book, o: Order)
    requires Same(b, c)
    ensures WouldCross(b, o) == WouldCross(c, o) && CanFullyFill(b, o) == CanFullyFill(c, o)
  {
  }

  lemma HandleLimitLeads(b: Book, c: Book, o: Order) returns (ms: seq<Move>)
    requires Same(b, c) && Wf(b)
    ensures Leads(b, HandleLimit(b, o).book, c, HandleLimit(c, o).book, ms, o.id)
    ensures Agree(HandleLimit(b, o), HandleLimit(c, o))
  {
    ChecksAgree(b, c, o);
    if (o.tif.PostOnly? && WouldCross(b, o)) || (o.tif.FOK? && !CanFullyFill(b, o)) {
      ms := [];
      LeadsNowhere(b, c, o.id);
    } else {
      hide Leads, MatchTaker, Rest, Withdraw, Wf, CanFullyFill, WouldCross;
      var (b1, r) := MatchTaker(b, o, false);
      var c1 := MatchTaker(c, o, false).0;
      ms := MatchTakerLeads(b, c, o, false, o.id);
      MatchTakerKeeps(b, o, false);
      LeadsSame(b, b1, c, c1, ms, o.id);
      var ns := [];
      if o.tif.IOC? || o.tif.FOK? {
        ns := WithdrawLeads(b1, c1, o, r, o.id);
      } else if r > 0 {
        ns := RestLeads(b1, c1, o.(volume := r));
      } else {
        LeadsNowhere(b1, c1, o.id);
      }
      LeadsThen(b, b1, HandleLimit(b, o).book, c, c1, HandleLimit(c, o).book, ms, ns, o.id);
      ms := ms + ns;
    }
  }

  lemma LeadsSame(b: Book, b': Book, c: Book, c': Book, ms: seq<Move>, id: int)
    requires Leads(b, b', c, c', ms, id)
    ensures Same(b', c')
  {
  }

  lemma HandleMarketLeads(b: Book, c: Book, o: Order) returns (ms: seq<Move>)
    requires Same(b, c) && Wf(b)
    ensures Leads(b, HandleMarket(b, o).book, c, HandleMarket(c, o).book, ms, o.id)
    ensures Agree(HandleMarket(b, o), HandleMarket(c, o))
  {
    hide Leads, MatchTaker, Withdraw, Wf;
    var (b1, r) := MatchTaker(b, o, true);
    var c1 := MatchTaker(c, o, true).0;
    ms := MatchTakerLeads(b, c, o, true, o.id);
    LeadsSame(b, b1, c, c1, ms, o.id);
    var ns := WithdrawLeads(b1, c1, o, r, o.id);
    LeadsThen(b, b1, HandleMarket(b, o).book, c, c1, HandleMarket(c, o).book, ms, ns, o.id);
    ms := ms + ns;
  }

  lemma SubmitLeads(b: Book, c: Book, order: Order) returns (ms: seq<Move>)
    requires Same(b, c) && Wf(b)
    ensures Leads(b, Submit(b, order).book, c, Submit(c, order).book, ms, order.id)
    ensures Agree(Submit(b, order), Submit(c, order))
  {
    hide Leads, HandleLimit, HandleMarket, Wf;
    var o := Normalize(order);
    if o.kind.LIMIT? || (o.kind.STOP_LIMIT? && IsTriggered(o, 0)) {
      ms := HandleLimitLeads(b, c, o);
    } else if o.kind.MARKET? {
      ms := HandleMarketLeads(b, c, o);
    } else if o.kind.STOP_LIMIT? {
      LeadsOne(b, c, Park(o), o.id);
      ms := [Park(o)];
    } else {
      ms := [];
      LeadsNowhere(b, c, o.id);
    }
  }

  // The operation puts its order at the tail of a queue (or tries to): everything but a
  // cancel, a modify that cancels and a modify that reduces in place.
  predicate Requeues(b: Book, op: Op) {
    match op
    case New(_) => true
    case CancelOp(_) => false
    case ModifyOp(id, p, v) =>
      Resting(b, id) && v != 0 && !(p == Lookup(b, id).value.price && v < Lookup(b, id).value.volume)
  }

  // The order an operation is about.
  function Subject(op: Op): int {
    match op
    case New(o) => o.id
    case CancelOp(id) => id
    case ModifyOp(id, _, _) => id
  }

  lemma ModifyLeads(b: Book, c: Book, id: int, p: Px, v: Qty, tag: int) returns (ms: seq<Move>)
    requires Same(b, c) && Wf(b) && ModifyAllowed(b, id, p, v)
    requires Requeues(b, ModifyOp(id, p, v)) ==> tag == id
    ensures Leads(b, Modify(b, id, p, v).book, c, Modify(c, id, p, v).book, ms, tag)
    ensures Agree(Modify(b, id, p, v), Modify(c, id, p, v))
  {
    assert Lookup(b, id) == Lookup(c, id);
    hide Leads, Submit, Books.Cancel, ReduceVolume, Lookup, Wf;
    if !Resting(b, id) {
      ms := [];
      LeadsNowhere(b, c, tag);
    } else {
      var o := Lookup(b, id).value;
      ms := CancelLeads(b, c, id, tag);
      if v == 0 {
      } else if p == o.price && v < o.volume {
        ms := ReduceLeads(b, c, id, v, tag);
      } else {
        LookupLocates(b, id);
        CancelKeeps(b, id);
        CancelSucceeds(b, id);
        var b1, c1 := Cancel(b, id).0, Cancel(c, id).0;
        LeadsSame(b, b1, c, c1, ms, tag);
        var o' := o.(price := p, volume := v);
        var ns := SubmitLeads(b1, c1, o');
        LeadsThen(b, b1, Submit(b1, o').book, c, c1, Submit(c1, o').book, ms, ns, id);
        ms := ms + ns;
      }
    }
  }

  lemma CancelSucceeds(b: Book, id: int)
    requires Resting(b, id)
    ensures Cancel(b, id).1 == NoError
  {
  }

  // Any operation, on any two books with the same ladders. Only `tag` may join a queue.
  lemma ApplyLeads(b: Book, c: Book, op: Op, tag: int) returns (ms: seq<Move>)
    requires Same(b, c) && Wf(b) && (op.ModifyOp? ==> ModifyAllowed(b, op.id, op.price, op.volume))
    requires Requeues(b, op) ==> tag == Subject(op)
    ensures Leads(b, Apply(b, op).book, c, Apply(c, op).book, ms, tag)
    ensures Agree(Apply(b, op), Apply(c, op))
  {
    hide Leads, Submit, Books.Cancel, Books.Modify, Wf;
    match op
    case New(o) => ms := SubmitLeads(b, c, o);
    case CancelOp(id) => ms := CancelLeads(b, c, id, tag);
    case ModifyOp(id, p, v) => ms := ModifyLeads(b, c, id, p, v, tag);
  }
}
