// Numbers and snapshots as literal text: what the parser reads, character by character, what the
// printer writes, and which field of a snapshot says what.
module Texts {
  import opened Orders
  import opened Ladders
  import opened Books
  import opened Invariants
  import opened Crossings
  import opened Fixed
  import opened Snapshot
  import opened SelfTrades

  // ---- what the parser reads ----

  // A numeral taken apart. Up to eight digits after the dot count; behind eight anything may follow.
  datatype Numeral = Numeral(sign: string, whole: string, dot: bool, frac: string, tail: string)

  predicate Readable(n: Numeral) {
    && n.sign in {"", "+", "-"}
    && AllDigits(n.whole) && AllDigits(n.frac) && |n.frac| <= 8
    && (n.whole != "" || n.frac != "")
    && (n.tail != "" ==> |n.frac| == 8)
    && (!n.dot ==> n.frac == "" && n.tail == "")
  }

  function Text(n: Numeral): string {
    n.sign + Body(n)
  }

  function Body(n: Numeral): string {
    n.whole + if n.dot then "." + (n.frac + n.tail) else ""
  }

  // In units of 10^-8.
  function Amount(n: Numeral): int
    requires |n.frac| <= 8
  {
    var a := Value(n.whole) * 1_0000_0000 + Value(n.frac) * Pow10(8 - |n.frac|);
    if n.sign == "-" then -a else a
  }

  lemma {:induction false} DigitsHaveNoDot(a: string, r: string)
    requires AllDigits(a) && (r == "" || r[0] == '.')
    ensures Dot(a + r) == |a|
  {
    if a == "" {
      assert a + r == r;
    } else {
      assert (a + r)[1..] == a[1..] + r;
      DigitsHaveNoDot(a[1..], r);
    }
  }

  lemma BodyParts(n: Numeral)
    requires Readable(n)
    ensures IntPart(Body(n)) == n.whole && FracPart(Body(n)) == n.frac + n.tail
    ensures Kept(FracPart(Body(n))) == n.frac
  {
    hide AllDigits, Dot;
    var u := Body(n);
    DigitsHaveNoDot(n.whole, if n.dot then "." + (n.frac + n.tail) else "");
    if n.dot {
      assert u == n.whole + ("." + (n.frac + n.tail));
      assert u[|n.whole| + 1..] == n.frac + n.tail;
    } else {
      assert u == n.whole;
    }
    assert u[..|n.whole|] == n.whole;
    if n.tail != "" { assert (n.frac + n.tail)[..8] == n.frac; }
  }

  lemma BodyStarts(n: Numeral)
    requires Readable(n)
    ensures Body(n) != "" && Body(n)[0] != '+' && Body(n)[0] != '-' && !IsSpace(Body(n)[0])
  {
    if n.whole != "" { assert Body(n)[0] == n.whole[0]; }
  }

  lemma SignSplits(n: Numeral)
    requires Readable(n)
    ensures Unsigned(Text(n)) == Body(n) && (Negative(Text(n)) <==> n.sign == "-")
    ensures Text(n) != "" && !IsSpace(Text(n)[0])
  {
    hide Body, IsSpace;
    BodyStarts(n);
    if n.sign == "" {
      assert Text(n) == Body(n);
    } else {
      assert Text(n)[0] == n.sign[0] && Text(n)[1..] == Body(n);
      assert !IsSpace('+') && !IsSpace('-') by { SignsAreNoSpace(); }
    }
  }

  lemma SignsAreNoSpace()
    ensures !IsSpace('+') && !IsSpace('-')
  {
  }

  // Every readable numeral that does not end in a space parses to its amount.
  lemma ParsesText(n: Numeral)
    requires Readable(n) && !IsSpace(Text(n)[|Text(n)| - 1])
    ensures Parse(Text(n)) == Ok(Wrap64(Amount(n)))
  {
    hide Value, Pow10, Wrap64, Dot, IsSpace, Text, Body, IntPart, FracPart, Kept, AllDigits;
    var t := Text(n);
    BodyStarts(n);
    BodyParts(n);
    SignSplits(n);
    assert TrimSpace(t) == t;
  }

  // Nothing else parses: what does is such a numeral, but for spaces around it.
  lemma OnlyNumeralsParse(s: string) returns (n: Numeral)
    requires Parse(s).Ok?
    ensures Readable(n) && Text(n) == TrimSpace(s)
  {
    hide Value, Pow10, Wrap64, Magnitude, TrimSpace, Dot, AllDigits, Unsigned;
    var t := TrimSpace(s);
    var u := Unsigned(t);
    var sign := SignOf(t);
    var kept := Kept(FracPart(u));
    n := Numeral(sign, IntPart(u), Dot(u) < |u|, kept, FracPart(u)[|kept|..]);
    CutAtDot(u);
    assert FracPart(u) == n.frac + n.tail;
    assert Body(n) == u;
  }

  lemma SignOf(t: string) returns (sign: string)
    ensures sign in {"", "+", "-"} && t == sign + Unsigned(t)
  {
    sign := if t == Unsigned(t) then "" else [t[0]];
  }

  lemma CutAtDot(u: string)
    ensures u == IntPart(u) + if Dot(u) < |u| then "." + FracPart(u) else ""
    ensures Dot(u) == |u| ==> FracPart(u) == ""
  {
    hide Dot;
    var d := Dot(u);
    if d < |u| { SplitAt(u, d); }
  }

  lemma SplitAt(u: string, d: nat)
    requires d < |u| && u[d] == '.'
    ensures u == u[..d] + ("." + u[d + 1..])
  {
  }

  predicate Spaces(s: string) {
    forall i | 0 <= i < |s| :: IsSpace(s[i])
  }

  // Spaces around a text do not count.
  lemma {:induction false} TrimsBothEnds(l: string, t: string, r: string)
    requires Spaces(l) && Spaces(r)
    ensures TrimSpace(l + t + r) == TrimSpace(t)
    decreases |l| + |t| + |r|
  {
    var s := l + t + r;
    if l != "" {
      assert s[0] == l[0] && s[1..] == l[1..] + t + r;
      TrimsBothEnds(l[1..], t, r);
    } else if r != "" {
      assert s == t + r;
      if t != "" && IsSpace(t[0]) {
        assert s[0] == t[0] && s[1..] == "" + t[1..] + r;
        TrimsBothEnds("", t[1..], r);
        assert "" + t[1..] + "" == t[1..];
      } else {
        TrimsEnd(t, r);
      }
    } else {
      assert s == t;
    }
  }

  lemma TrimsEnd(t: string, r: string)
    requires Spaces(r) && r != "" && (t == "" || !IsSpace(t[0]))
    ensures TrimSpace(t + r) == TrimSpace(t)
    decreases |r|
  {
    var s := t + r;
    if t == "" {
      assert s == r;
      AllSpace(r);
    } else {
      assert s[0] == t[0] && s[|s| - 1] == r[|r| - 1] && s[..|s| - 1] == t + r[..|r| - 1];
      if |r| > 1 { TrimsEnd(t, r[..|r| - 1]); } else { assert t + r[..0] == t; }
    }
  }

  lemma {:induction false} AllSpace(r: string)
    requires Spaces(r)
    ensures TrimSpace(r) == ""
    decreases |r|
  {
    if r != "" { AllSpace(r[1..]); }
  }

  // ---- what the printer writes ----

  lemma {:induction false} DecimalStarts(n: nat)
    ensures Decimal(n) != "" && (n > 0 ==> Decimal(n)[0] != '0') && (n == 0 ==> Decimal(n) == "0")
  {
    if n >= 10 { DecimalStarts(n / 10); }
  }

  // A sign if negative, the digits of the whole part without a leading zero, a dot, and always
  // eight digits.
  lemma PrintsText(v: int) returns (n: Numeral)
    requires Int64(v) && v != MIN64
    ensures FormatFixed(v) == Text(n) && Readable(n) && Amount(n) == v
    ensures n.dot && |n.frac| == 8 && n.tail == "" && n.sign == (if v < 0 then "-" else "")
    ensures n.whole == "0" || (n.whole != "" && n.whole[0] != '0')
  {
    hide Decimal, Padded, Value, Quot, Rem, FormatFixed;
    var a := if v < 0 then -v else v;
    FormatIs(v);
    QuotRem(a);
    n := Numeral(if v < 0 then "-" else "", Decimal(a / FACTOR), true, Padded(a % FACTOR, SCALE), "");
    DecimalValue(a / FACTOR);
    PaddedValue(a % FACTOR);
    DecimalStarts(a / FACTOR);
    assert n.frac + n.tail == n.frac;
    assert Pow10(0) == 1;
    assert Canonical(a) == n.whole + "." + n.frac;
  }

  // In JSON the quotes are optional. An empty input is an error and a single quote panics.
  lemma QuotesAreOptional(s: string)
    ensures UnmarshalJSON("\"" + s + "\"") == Parse(s)
    ensures s != "" && s[0] != '"' ==> UnmarshalJSON(s) == Parse(s)
    ensures UnmarshalJSON("") == Err(EmptyJson) && UnmarshalJSON("\"") == Panic
  {
    hide Parse, FormatFixed;
    var b := "\"" + s + "\"";
    assert b[1..|b| - 1] == s;
  }

  // ---- what a snapshot says ----

  // A written order says each field under its name, its numbers as text that parses to them.
  ghost predicate Says(p: ProtoOrder, o: Order) {
    && p.id == o.id && p.symbol == o.symbol && p.userID == o.userID
    && p.side == o.side && p.kind == o.kind && p.tif == o.tif && p.stp == o.stp
    && Parse(p.price) == Ok(o.price) && Parse(p.volume) == Ok(o.volume)
    && if o.trigger == 0 then p.trigger == "" else Parse(p.trigger) == Ok(o.trigger)
  }

  lemma OrderSays(o: Order)
    requires Machine(o) && Printable(o)
    ensures Says(OrderToProto(o), o)
  {
    hide Parse, FormatFixed;
    RoundTrip(o.price);
    RoundTrip(o.volume);
    RoundTrip(o.trigger);
  }

  // What says so reads as that order, whoever wrote it.
  lemma SaidReads(p: ProtoOrder, o: Order)
    requires Says(p, o)
    ensures OrderFromProto(p) == Some(o)
  {
    assert Parse("") == Err(EmptyString) by { ExampleBlanks(); }
    hide Parse;
  }

  ghost predicate AllSay(ps: seq<ProtoOrder>, q: seq<Order>) {
    |ps| == |q| && forall k | 0 <= k < |q| :: Says(ps[k], q[k])
  }

  ghost predicate LadderSays(es: seq<ProtoEntry>, L: Ladder) {
    |es| == |L| && forall i | 0 <= i < |L| :: Parse(es[i].price) == Ok(L[i].price) && AllSay(es[i].orders, L[i].queue)
  }

  lemma QueueSays(q: seq<Order>)
    requires forall o | o in q :: Machine(o) && Printable(o)
    ensures AllSay(OrdersToProto(q), q)
  {
    hide Machine, Printable, Says, OrderToProto;
    forall k | 0 <= k < |q| ensures Says(OrdersToProto(q)[k], q[k]) {
      OrderAt(q, k);
      OrderSays(q[k]);
    }
  }

  lemma LadderIsSaid(s: Side, L: Ladder)
    requires SideOk(s, L) && forall o | o in Flat(L) :: Machine(o) && Printable(o)
    ensures LadderSays(EntriesToProto(L), L)
  {
    hide Machine, Printable, Flat, Parse, FormatFixed, SideOk, AllSay;
    forall i | 0 <= i < |L|
      ensures Parse(EntriesToProto(L)[i].price) == Ok(L[i].price)
      ensures AllSay(EntriesToProto(L)[i].orders, L[i].queue)
    {
      EntryAt(L, i);
      SidePositive(s, L, i);
      forall o | o in L[i].queue ensures o in Flat(L) {
        var k :| 0 <= k < |L[i].queue| && L[i].queue[k] == o;
        FlatHas(L, i, k);
      }
      PriceIsPrintable(L[i].queue[0]);
      RoundTrip(L[i].queue[0].price);
      QueueSays(L[i].queue);
    }
  }

  lemma PriceIsPrintable(o: Order)
    requires Machine(o) && Printable(o)
    ensures Int64(o.price) && o.price != MIN64
  {
  }

  // A snapshot lists the bids as buys and the asks as sells, level by level in priority order
  // under the price of the level, order by order from the oldest, then the stop orders.
  lemma SnapshotSays(b: Book)
    requires Wf(b) && AllMachine(b) && AllPrintable(b)
    ensures var p := BookToProto(b);
      && LadderSays(p.buy, b.bids) && LadderSays(p.sell, b.asks) && AllSay(p.conditional, b.parked)
      && p.symbol == b.symbol && p.seqNo == b.seqNo
  {
    hide Machine, Printable, LadderSays, AllSay, SideOk, Flat, OrdersToProto, EntriesToProto;
    var all := Flat(b.bids) + Flat(b.asks);
    assert Everything(b) == all;
    forall o | o in Flat(b.bids) || o in Flat(b.asks) ensures Machine(o) && Printable(o) {
      assert o in all;
      var k :| 0 <= k < |all| && all[k] == o;
    }
    LadderIsSaid(BUY, b.bids);
    LadderIsSaid(SELL, b.asks);
    QueueSays(b.parked);
  }

  lemma {:induction false} SaidOrdersAdd(b: Book, ps: seq<ProtoOrder>, q: seq<Order>)
    requires AllSay(ps, q)
    ensures AddAll(b, ps) == Some(RestAll(b, q)) && ParkAll(b, ps) == Some(b.(parked := b.parked + q))
    decreases q
  {
    hide OrderFromProto, Says, Rest;
    if q == [] {
      assert b.parked + q == b.parked;
    } else {
      SaidReads(ps[0], q[0]);
      assert AllSay(ps[1..], q[1..]);
      SaidOrdersAdd(Rest(b, q[0]), ps[1..], q[1..]);
      SaidOrdersAdd(b.(parked := b.parked + [q[0]]), ps[1..], q[1..]);
      assert b.parked + [q[0]] + q[1..] == b.parked + q;
    }
  }

  lemma SaysConcat(ps: seq<ProtoOrder>, q: seq<Order>, rs: seq<ProtoOrder>, u: seq<Order>)
    requires AllSay(ps, q) && AllSay(rs, u)
    ensures AllSay(ps + rs, q + u)
  {
    hide Says;
  }

  lemma {:induction false} SaidLadderFlattens(es: seq<ProtoEntry>, L: Ladder)
    requires LadderSays(es, L)
    ensures AllSay(OrdersOf(es), Flat(L))
  {
    hide AllSay, Parse;
    if L == [] {
      assert AllSay([], []) by { NothingSaid(); }
    } else {
      assert LadderSays(es[1..], L[1..]);
      SaidLadderFlattens(es[1..], L[1..]);
      SaysConcat(es[0].orders, L[0].queue, OrdersOf(es[1..]), Flat(L[1..]));
    }
  }

  lemma NothingSaid()
    ensures AllSay([], [])
  {
  }

  // A snapshot that says so reads as a book with these ladders, stop orders, symbol and counter,
  // with no callback and no history.
  lemma SaidBookReads(p: ProtoBook, b: Book)
    requires Wf(b) && LadderSays(p.buy, b.bids) && LadderSays(p.sell, b.asks) && AllSay(p.conditional, b.parked)
    requires p.symbol == b.symbol && p.seqNo == b.seqNo
    ensures BookFromProto(p) == Some(b.(sink := false, tape := [], voids := []))
  {
    hide AllSay, LadderSays, AddAll, ParkAll, RestAll, Flat, OrdersOf;
    var e := Empty(b.symbol).(seqNo := b.seqNo);
    SaidLadderFlattens(p.buy, b.bids);
    SaidLadderFlattens(p.sell, b.asks);
    SaysConcat(OrdersOf(p.buy), Flat(b.bids), OrdersOf(p.sell), Flat(b.asks));
    SaidOrdersAdd(e, OrdersOf(p.buy) + OrdersOf(p.sell), Everything(b));
    RestEverything(b, e);
    SaidOrdersAdd(e.(bids := b.bids, asks := b.asks), p.conditional, b.parked);
    assert [] + b.parked == b.parked;
  }

  // ---- the examples of the unit tests ----

  lemma Snoc(s: string, c: char)
    ensures Value(s + [c]) == 10 * Value(s) + DigitOf(c)
  {
    assert (s + [c])[..|s + [c]| - 1] == s;
  }

  lemma SmallValues()
    ensures Value("") == 0 && Value("0") == 0 && Value("1") == 1 && Value("5") == 5 && Value("42") == 42
  {
    hide Value;
    assert Value("") == 0 by { EmptyValue(); }
    assert "0" == "" + ['0'] && "1" == "" + ['1'] && "5" == "" + ['5'] && "4" == "" + ['4'] && "42" == "4" + ['2'];
    Snoc("", '0');
    Snoc("", '1');
    Snoc("", '5');
    Snoc("", '4');
    Snoc("4", '2');
  }

  lemma EmptyValue()
    ensures Value("") == 0 && Pow10(0) == 1 && Pow10(7) == 1000_0000
  {
    PowerOfScale();
    assert Pow10(8) == 10 * Pow10(7);
  }

  lemma EightDigits()
    ensures Value("12345678") == 12345678
  {
    hide Value;
    SmallValues();
    Snoc("1", '2');
    Snoc("12", '3');
    Snoc("123", '4');
    Snoc("1234", '5');
    Snoc("12345", '6');
    Snoc("123456", '7');
    Snoc("1234567", '8');
    assert "12" == "1" + ['2'] && "123" == "12" + ['3'] && "1234" == "123" + ['4'] && "12345" == "1234" + ['5'];
    assert "123456" == "12345" + ['6'] && "1234567" == "123456" + ['7'] && "12345678" == "1234567" + ['8'];
  }

  lemma ExampleIs(n: Numeral, text: string)
    requires Readable(n) && text == n.sign + (n.whole + if n.dot then "." + (n.frac + n.tail) else "")
    requires !IsSpace(text[|text| - 1]) && Int64(Amount(n))
    ensures Parse(text) == Ok(Amount(n))
  {
    hide Value, Pow10, Parse;
    ParsesText(n);
  }

  lemma ExampleSigns()
    ensures Parse("+42") == Ok(42_0000_0000) && Parse(".5") == Ok(5000_0000)
  {
    hide Value, Pow10, Parse;
    SmallValues();
    EmptyValue();
    ExampleIs(Numeral("+", "42", false, "", ""), "+42");
    ExampleIs(Numeral("", "", true, "5", ""), ".5");
  }

  lemma ExampleFractions()
    ensures Parse("-1.5") == Ok(-1_5000_0000) && Parse("0.123456789") == Ok(1234_5678)
  {
    hide Value, Pow10, Parse;
    SmallValues();
    EmptyValue();
    EightDigits();
    ExampleIs(Numeral("-", "1", true, "5", ""), "-1.5");
    ExampleIs(Numeral("", "0", true, "12345678", "9"), "0.123456789");
  }

  lemma NoTrim(t: string)
    requires t != "" && !IsSpace(t[0]) && !IsSpace(t[|t| - 1])
    ensures TrimSpace(t) == t
  {
  }

  // A text whose whole part has a character that is no digit.
  lemma BadWhole(t: string, i: nat)
    requires t != "" && !IsSpace(t[0]) && !IsSpace(t[|t| - 1]) && Unsigned(t) != ""
    requires i < |Unsigned(t)| && !IsDigit(Unsigned(t)[i]) && forall j | 0 <= j <= i :: Unsigned(t)[j] != '.'
    ensures Parse(t) == Err(BadDigit)
  {
    hide Value, Dot, IsDigit, IsSpace;
    NoTrim(t);
    assert IntPart(Unsigned(t))[i] == Unsigned(t)[i];
  }

  lemma ExampleBlanks()
    ensures Parse("") == Err(EmptyString) && Parse(" ") == Err(EmptyString)
    ensures Parse("+") == Err(MissingDigits) && Parse("-") == Err(MissingDigits)
  {
    hide Value, Dot, TrimSpace;
    AllSpace(" ");
    AllSpace("");
    NoTrim("+");
    NoTrim("-");
  }

  lemma ExampleFaults()
    ensures Parse("abc") == Err(BadDigit) && Parse("1e10") == Err(BadDigit) && Parse("--5") == Err(BadDigit)
    ensures Parse("1.2.3") == Err(BadDigit)
  {
    hide Parse;
    BadWhole("abc", 0);
    BadWhole("1e10", 1);
    assert "--5"[1..] == "-5";
    BadWhole("--5", 0);
    TwoDots();
  }

  lemma TwoDots()
    ensures Parse("1.2.3") == Err(BadDigit)
  {
    hide Value, Dot, TrimSpace;
    NoTrim("1.2.3");
    DigitsHaveNoDot("1", ".2.3");
    assert "1" + ".2.3" == "1.2.3" && "1.2.3"[2..] == "2.3" && "2.3"[1] == '.';
  }

  lemma DecimalStep(n: nat, s: string)
    requires n >= 10 && Decimal(n / 10) == s
    ensures Decimal(n) == s + [Digit(n % 10)]
  {
  }

  lemma ExampleDecimals()
    ensures Decimal(0) == "0" && Decimal(1) == "1" && Decimal(5000_0000) == "50000000" && Decimal(1_0000) == "10000"
  {
    hide Decimal;
    assert Decimal(0) == "0" && Decimal(1) == "1" && Decimal(5) == "5" by { OneDigit(); }
    DecimalStep(50, "5");
    DecimalStep(500, "50");
    DecimalStep(5000, "500");
    DecimalStep(5_0000, "5000");
    DecimalStep(50_0000, "50000");
    DecimalStep(500_0000, "500000");
    DecimalStep(5000_0000, "5000000");
    DecimalStep(10, "1");
    DecimalStep(100, "10");
    DecimalStep(1000, "100");
    DecimalStep(1_0000, "1000");
  }

  lemma OneDigit()
    ensures Decimal(0) == "0" && Decimal(1) == "1" && Decimal(5) == "5"
  {
  }

  lemma PrintedIs(w: nat, f: nat)
    requires f < FACTOR && Int64(w * FACTOR + f)
    ensures FormatFixed(w * FACTOR + f) == Decimal(w) + "." + Padded(f, 8)
    ensures w * FACTOR + f > 0 ==> FormatFixed(-(w * FACTOR + f)) == "-" + (Decimal(w) + "." + Padded(f, 8))
  {
    hide Decimal, Padded, FormatFixed, Quot, Rem;
    var a := w * FACTOR + f;
    FormatIs(a);
    FormatIs(-a);
    QuotRem(a);
    assert a / FACTOR == w && a % FACTOR == f;
  }

  lemma ExamplePadded()
    ensures Padded(0, 8) == "00000000" && Padded(5000_0000, 8) == "50000000"
  {
    hide Decimal, Zeros;
    ExampleDecimals();
    SevenZeros();
  }

  lemma ExampleTexts()
    ensures FormatFixed(0) == "0.00000000" && FormatFixed(5000_0000) == "0.50000000"
    ensures FormatFixed(1_0000_5000_0000) == "10000.50000000" && FormatFixed(-1_5000_0000) == "-1.50000000"
    ensures MarshalJSON(1_0000_5000_0000) == "\"10000.50000000\""
  {
    hide Decimal, Padded, FormatFixed;
    ExampleDecimals();
    ExamplePadded();
    PrintedIs(0, 0);
    PrintedIs(0, 5000_0000);
    PrintedIs(1_0000, 5000_0000);
    PrintedIs(1, 5000_0000);
  }

  lemma SevenZeros()
    ensures Zeros(7) == "0000000"
  {
    assert Zeros(2) == "00" && Zeros(4) == "0000" && Zeros(6) == "000000";
  }
}
