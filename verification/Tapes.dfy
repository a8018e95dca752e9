// Bookkeeping facts about the tape of numbered events.
module Tapes {
  import opened Orders
  import opened Matching
  import opened Books

  function DeltasOf(es: seq<Event>): seq<BookDelta> {
    if es == [] then []
    else (if es[0].Delta? then [es[0].d] else []) + DeltasOf(es[1..])
  }

  lemma {:induction false} DeltasConcat(a: seq<Event>, b: seq<Event>)
    ensures DeltasOf(a + b) == DeltasOf(a) + DeltasOf(b)
  {
    if a == [] {
      assert a + b == b;
    } else {
      var d := if a[0].Delta? then [a[0].d] else [];
      assert (a + b)[1..] == a[1..] + b;
      DeltasConcat(a[1..], b);
      assert d + (DeltasOf(a[1..]) + DeltasOf(b)) == d + DeltasOf(a[1..]) + DeltasOf(b);
    }
  }

  lemma {:induction false} TradesConcat(a: seq<Event>, b: seq<Event>)
    ensures TradesOf(a + b) == TradesOf(a) + TradesOf(b)
  {
    if a == [] {
      assert a + b == b;
    } else {
      var m := if a[0].Trade? then [a[0].m] else [];
      assert (a + b)[1..] == a[1..] + b;
      TradesConcat(a[1..], b);
      assert m + (TradesOf(a[1..]) + TradesOf(b)) == m + TradesOf(a[1..]) + TradesOf(b);
    }
  }

  lemma TapeSnoc(es: seq<Event>, e: Event)
    ensures DeltasOf(es + [e]) == DeltasOf(es) + if e.Delta? then [e.d] else []
    ensures TradesOf(es + [e]) == TradesOf(es) + if e.Trade? then [e.m] else []
  {
    DeltasConcat(es, [e]);
    TradesConcat(es, [e]);
    assert [e][1..] == [];
  }

  lemma TradesAfter(b: Book, b': Book, es: seq<Event>)
    requires b'.tape == b.tape + es && |es| <= 1
    ensures TradesSince(b, b') == if es != [] && es[0].Trade? then [es[0].m] else []
  {
    assert b'.tape[|b.tape|..] == es;
    if |es| == 1 {
      assert es[1..] == [];
      assert TradesOf(es) == (if es[0].Trade? then [es[0].m] else []) + TradesOf([]);
    }
  }

  // What an operation in two halves reports is what each half reports.
  lemma TradesCompose(a: Book, b: Book, c: Book)
    requires a.tape <= b.tape && b.tape <= c.tape
    ensures a.tape <= c.tape
    ensures TradesSince(a, c) == TradesSince(a, b) + TradesSince(b, c)
  {
    var n, m := |a.tape|, |b.tape|;
    assert c.tape[..m] == b.tape;
    assert c.tape[n..] == b.tape[n..] + c.tape[m..];
    TradesConcat(b.tape[n..], c.tape[m..]);
  }

  lemma {:induction false} RecordAppend(b: Book, t: Order, f: seq<Fill>, g: seq<Fill>, price: Px)
    ensures Record(Record(b, t, f, price), t, g, price) == Record(b, t, f + g, price)
    decreases f
  {
    if f == [] {
      assert f + g == g;
    } else {
      assert (f + g)[1..] == f[1..] + g;
      var m := MakeMatch(t, f[0].order.id, price, f[0].qty, b.seqNo + 1);
      RecordAppend(b.(seqNo := b.seqNo + 1, tape := b.tape + [Trade(m)]), t, f[1..], g, price);
    }
  }

  lemma RecordOne(b: Book, t: Order, f: Fill, price: Px)
    ensures Record(b, t, [], price) == b
    ensures Record(b, t, [f], price) ==
      b.(seqNo := b.seqNo + 1, tape := b.tape + [Trade(MakeMatch(t, f.order.id, price, f.qty, b.seqNo + 1))])
  {
    assert [f][1..] == [];
  }

  lemma {:induction false} RecordVoids(b: Book, t: Order, f: seq<Fill>, price: Px, voids: seq<Fill>)
    ensures Record(b.(voids := voids), t, f, price) == Record(b, t, f, price).(voids := voids)
    decreases f
  {
    if f != [] {
      var m := MakeMatch(t, f[0].order.id, price, f[0].qty, b.seqNo + 1);
      RecordVoids(b.(seqNo := b.seqNo + 1, tape := b.tape + [Trade(m)]), t, f[1..], price, voids);
    }
  }

  // Recording one step after the recording so far.
  lemma RecordStep(b: Book, t: Order, f: seq<Fill>, c: seq<Fill>, g: seq<Fill>, d: seq<Fill>, price: Px)
    ensures var b1 := Record(b, t, f, price).(voids := b.voids + c);
      Record(b1, t, g, price).(voids := b1.voids + d) == Record(b, t, f + g, price).(voids := b.voids + (c + d))
  {
    RecordAppend(b, t, f, g, price);
    RecordVoids(Record(b, t, f, price), t, g, price, b.voids + c);
    assert b.voids + c + d == b.voids + (c + d);
  }

  // A delta reports no match.
  lemma TradesUnchanged(a: Book, b: Book, c: Book)
    requires a.tape <= b.tape
    requires c.tape == b.tape || exists d :: c.tape == b.tape + [Delta(d)]
    ensures a.tape <= c.tape && TradesSince(a, c) == TradesSince(a, b)
  {
    TradesAfter(b, c, if c.tape == b.tape then [] else [c.tape[|b.tape|]]);
    TradesCompose(a, b, c);
  }
}
