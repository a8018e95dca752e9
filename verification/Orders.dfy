// Orders, matches and book events: the values the engine passes around.
module Orders {

  datatype Option<T> = None | Some(value: T)

  // Prices and quantities are the scaled integers of the engine. Inside the book they are
  // unbounded; module Fixed models the 64-bit conversion to and from text.
  type Px = int
  type Qty = int

  // Each of these is a string in the source. `Other...` stands for every string that is not
  // one of the named constants, so that the default branches of the source can be reached.
  datatype Side = BUY | SELL | OtherSide(tag: string)
  datatype OrderType = LIMIT | MARKET | STOP_LIMIT | OtherType(tag: string)
  datatype TIF = GTC | IOC | FOK | PostOnly | OtherTIF(tag: string)
  datatype STPMode = STPNone | CancelTaker | CancelResting | CancelBoth | Decrement | OtherSTP(tag: string)

  datatype Order = Order(
    id: int,
    symbol: string,
    userID: int,
    side: Side,
    kind: OrderType,
    tif: TIF,
    stp: STPMode,
    price: Px,
    trigger: Px,
    volume: Qty)

  datatype Match = Match(seqNo: nat, buyId: int, sellId: int, price: Px, volume: Qty)

  datatype BookDelta = BookDelta(seqNo: nat, symbol: string, side: Side, price: Px, qty: Qty)

  // Everything that draws a number from the book's sequence counter, in drawing order.
  datatype Event = Trade(m: Match) | Delta(d: BookDelta)

  function SeqOf(e: Event): nat {
    match e
    case Trade(m) => m.seqNo
    case Delta(d) => d.seqNo
  }

  predicate OnBook(s: Side) {
    s.BUY? || s.SELL?
  }

  function Opposite(s: Side): Side
    requires OnBook(s)
  {
    if s.BUY? then SELL else BUY
  }

  function MinQty(a: Qty, b: Qty): Qty {
    if a < b then a else b
  }

  function Positive(a: Qty): Qty {
    if a > 0 then a else 0
  }

  // An empty time-in-force already is GTC, so only the self-trade default remains.
  function Normalize(o: Order): Order {
    if o.stp.STPNone? && o.userID != 0 then o.(stp := CancelTaker) else o
  }

  predicate IsTriggered(o: Order, price: Px) {
    if !o.kind.STOP_LIMIT? then true
    else match o.side
      case BUY => price <= o.trigger
      case SELL => price >= o.trigger
      case OtherSide(_) => false
  }

  // What the engine refuses before journaling.
  predicate Validates(o: Order) {
    o.kind != OtherType("") && o.side != OtherSide("") && o.price != 0 && o.symbol != ""
  }

  // The limit check of a taker against one price level.
  predicate Crosses(taker: Order, restingPrice: Px) {
    match taker.side
    case BUY => taker.price >= restingPrice
    case SELL => taker.price <= restingPrice
    case OtherSide(_) => false
  }

  // Self-trade prevention applies between this taker and this resting order.
  predicate SelfTrade(taker: Order, resting: Order) {
    taker.userID != 0 && !taker.stp.STPNone? && resting.userID == taker.userID
  }

  function MakeMatch(taker: Order, restingId: int, price: Px, volume: Qty, seqNo: nat): Match {
    if taker.side.BUY? then Match(seqNo, taker.id, restingId, price, volume)
    else Match(seqNo, restingId, taker.id, price, volume)
  }

  // ---- sums over queues ----

  function SumQ(q: seq<Order>, f: Order -> int): int {
    if q == [] then 0 else f(q[0]) + SumQ(q[1..], f)
  }

  // Weights to sum. Named functions, so that two mentions denote the same function value.
  function Volumes(): Order -> int { (o: Order) => o.volume }
  function CountOf(id: int): Order -> int { (o: Order) => if o.id == id then 1 else 0 }
  function VolumeOf(id: int): Order -> int { (o: Order) => if o.id == id then o.volume else 0 }

  lemma {:induction false} SumConcat(a: seq<Order>, b: seq<Order>, f: Order -> int)
    ensures SumQ(a + b, f) == SumQ(a, f) + SumQ(b, f)
  {
    if a == [] {
      assert a + b == b;
    } else {
      assert (a + b)[1..] == a[1..] + b;
      SumConcat(a[1..], b, f);
    }
  }

  lemma {:induction false} SumSplit(q: seq<Order>, k: nat, f: Order -> int)
    requires k < |q|
    ensures SumQ(q, f) == SumQ(q[..k], f) + f(q[k]) + SumQ(q[k + 1..], f)
  {
    assert q == q[..k] + ([q[k]] + q[k + 1..]);
    SumConcat(q[..k], [q[k]] + q[k + 1..], f);
    SumConcat([q[k]], q[k + 1..], f);
    assert [q[k]][1..] == [];
  }

  // The sequence with position k taken out.
  function RemoveAt<T>(s: seq<T>, k: nat): seq<T>
    requires k < |s|
  {
    s[..k] + s[k + 1..]
  }

  lemma TakeSnoc<T>(s: seq<T>, k: nat)
    requires k < |s|
    ensures s[..k] + [s[k]] == s[..k + 1]
  {
  }

  lemma Assoc<T>(a: seq<T>, b: seq<T>, c: seq<T>)
    ensures a + (b + c) == a + b + c
  {
  }

  // Changing a position behind the head.
  lemma ConsRemove<T>(s: seq<T>, k: nat)
    requires 0 < k < |s|
    ensures [s[0]] + (s[1..][..k - 1] + s[1..][k..]) == s[..k] + s[k + 1..]
  {
  }

  lemma ConsUpdate<T>(s: seq<T>, k: nat, x: T)
    requires 0 < k < |s|
    ensures [s[0]] + s[1..][k - 1 := x] == s[k := x]
  {
  }

  lemma RemoveAtIs<T>(s: seq<T>, k: nat)
    requires k < |s|
    ensures |RemoveAt(s, k)| == |s| - 1
    ensures forall i | 0 <= i < |s| - 1 :: RemoveAt(s, k)[i] == s[if i < k then i else i + 1]
  {
  }

  // The sequence with x put in at position k.
  lemma InsertAtIs<T>(s: seq<T>, x: T, k: nat)
    requires k <= |s|
    ensures var r := s[..k] + [x] + s[k..];
      && |r| == |s| + 1
      && forall i | 0 <= i <= |s| :: r[i] == if i < k then s[i] else if i == k then x else s[i - 1]
  {
  }

  // Putting in a new element and taking it out.
  lemma InsertThenRemove<T>(s: seq<T>, x: T, k: nat, i: nat)
    requires k <= |s| && x !in s
    requires var r := s[..k] + [x] + s[k..]; i < |r| && r[i] == x
    ensures RemoveAt(s[..k] + [x] + s[k..], i) == s
  {
    var r := s[..k] + [x] + s[k..];
    InsertAtIs(s, x, k);
    RemoveAtIs(r, i);
    forall j | 0 <= j <= |s| && j != k ensures r[j] in s {
      assert r[j] == s[if j < k then j else j - 1];
    }
    assert forall j | 0 <= j < |s| :: RemoveAt(r, i)[j] == s[j];
  }

  lemma SumRemove(q: seq<Order>, k: nat, f: Order -> int)
    requires k < |q|
    ensures SumQ(RemoveAt(q, k), f) == SumQ(q, f) - f(q[k])
  {
    SumSplit(q, k, f);
    SumConcat(q[..k], q[k + 1..], f);
  }

  lemma SumUpdate(q: seq<Order>, k: nat, o: Order, f: Order -> int)
    requires k < |q|
    ensures SumQ(q[k := o], f) == SumQ(q, f) - f(q[k]) + f(o)
  {
    SumSplit(q, k, f);
    SumSplit(q[k := o], k, f);
    assert q[k := o][..k] == q[..k] && q[k := o][k + 1..] == q[k + 1..];
  }
}
