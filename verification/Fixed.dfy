// Prices and quantities as text: the parser and the printer of scaled 64-bit integers, with the
// wrap-around of the machine arithmetic written out.
module Fixed {
  import opened Orders

  const SCALE := 8
  const FACTOR := 1_0000_0000
  const TWO63 := 0x8000_0000_0000_0000
  const TWO64 := 0x1_0000_0000_0000_0000
  const MIN64 := -TWO63

  predicate Int64(v: int) {
    -TWO63 <= v < TWO63
  }

  // The 64-bit value congruent to x.
  function Wrap64(x: int): int {
    (x + TWO63) % TWO64 - TWO63
  }

  datatype ParseError = EmptyString | MissingDigits | NoDigits | BadDigit | EmptyJson
  // Panic: the source slices out of range.
  datatype Parsed = Ok(value: int) | Err(error: ParseError) | Panic

  // ---- digits ----

  predicate IsDigit(c: char) {
    '0' <= c <= '9'
  }

  predicate AllDigits(s: string) {
    forall i | 0 <= i < |s| :: IsDigit(s[i])
  }

  function DigitOf(c: char): int {
    c as int - '0' as int
  }

  // The number a digit string denotes, with no bound.
  function Value(s: string): int {
    if s == "" then 0 else 10 * Value(s[..|s| - 1]) + DigitOf(s[|s| - 1])
  }

  function Pow10(n: nat): int {
    if n == 0 then 1 else 10 * Pow10(n - 1)
  }

  // ---- cutting a string apart ----

  predicate IsSpace(c: char) {
    || '\t' <= c <= '\r' || c == ' ' || c == '\U{0085}' || c == '\U{00A0}' || c == '\U{1680}'
    || '\U{2000}' <= c <= '\U{200A}' || c == '\U{2028}' || c == '\U{2029}' || c == '\U{202F}'
    || c == '\U{205F}' || c == '\U{3000}'
  }

  function TrimSpace(s: string): string
    decreases |s|
  {
    if s == "" then s
    else if IsSpace(s[0]) then TrimSpace(s[1..])
    else if IsSpace(s[|s| - 1]) then TrimSpace(s[..|s| - 1])
    else s
  }

  // Position of the first dot, the length if there is none.
  function Dot(s: string): (k: nat)
    ensures k <= |s|
    ensures k < |s| ==> s[k] == '.'
    ensures forall i | 0 <= i < k :: s[i] != '.'
  {
    if s == "" || s[0] == '.' then 0 else 1 + Dot(s[1..])
  }

  function IntPart(s: string): string {
    s[..Dot(s)]
  }

  function FracPart(s: string): string {
    if Dot(s) < |s| then s[Dot(s) + 1..] else ""
  }

  // At most SCALE fractional digits are looked at.
  function Kept(frac: string): string {
    if |frac| > SCALE then frac[..SCALE] else frac
  }

  predicate Negative(s: string) {
    s != "" && s[0] == '-'
  }

  // The text without its sign.
  function Unsigned(s: string): string {
    if s != "" && (s[0] == '+' || s[0] == '-') then s[1..] else s
  }

  // ---- what a string means ----

  // Scaled magnitude of an unsigned decimal, truncated at SCALE digits.
  function Magnitude(u: string): int {
    Value(IntPart(u)) * FACTOR + Value(Kept(FracPart(u))) * Pow10(SCALE - |Kept(FracPart(u))|)
  }

  function Meaning(s: string): int {
    var t := TrimSpace(s);
    if Negative(t) then -Magnitude(Unsigned(t)) else Magnitude(Unsigned(t))
  }

  function Fault(s: string): Option<ParseError> {
    var t := TrimSpace(s);
    var u := Unsigned(t);
    if t == "" then Some(EmptyString)
    else if u == "" then Some(MissingDigits)
    else if IntPart(u) == "" && FracPart(u) == "" then Some(NoDigits)
    else if !AllDigits(IntPart(u)) || !AllDigits(Kept(FracPart(u))) then Some(BadDigit)
    else None
  }

  // Parsing as a function: the meaning, as a machine integer.
  function Parse(s: string): Parsed {
    match Fault(s)
    case Some(e) => Err(e)
    case None => Ok(Wrap64(Meaning(s)))
  }

  // ---- the parser ----

  // One digit loop of the parser, in wrapping arithmetic.
  method ReadDigits(s: string) returns (n: int, ok: bool)
    ensures ok <==> AllDigits(s)
    ensures ok ==> n == Wrap64(Value(s))
  {
    n := 0;
    var i := 0;
    while i < |s|
      invariant i <= |s|
      invariant AllDigits(s[..i]) && n == Wrap64(Value(s[..i]))
    {
      var c := s[i];
      if c < '0' || c > '9' {
        return 0, false;
      }
      ValueSnoc(s, i);
      WrapLinear(Value(s[..i]), 10, DigitOf(c));
      n := Wrap64(Wrap64(n * 10) + DigitOf(c));
      i := i + 1;
    }
    assert s[..|s|] == s;
    ok := true;
  }

  // The source's parser computes Parse: wrapping at every step is wrapping once at the end.
  method ParseFixed(input: string) returns (r: Parsed)
    ensures r == Parse(input)
  {
    hide TrimSpace, Value, Wrap64, Pow10, AllDigits, Dot;
    var s := TrimSpace(input);
    if s == "" {
      return Err(EmptyString);
    }
    var neg := s[0] == '-';
    if s[0] == '+' || s[0] == '-' {
      s := s[1..];
    }
    if s == "" {
      return Err(MissingDigits);
    }
    var intPart, fracPart := IntPart(s), FracPart(s);
    if intPart == "" && fracPart == "" {
      return Err(NoDigits);
    }
    var whole, ok := ReadDigits(intPart);
    if !ok {
      return Err(BadDigit);
    }
    if |fracPart| > SCALE {
      fracPart := fracPart[..SCALE];
    }
    var frac;
    frac, ok := ReadDigits(fracPart);
    if !ok {
      return Err(BadDigit);
    }
    frac := PadRight(frac, fracPart);
    var out := Wrap64(Wrap64(whole * FACTOR) + frac);
    WrapSum(Value(intPart) * FACTOR, Value(fracPart) * Pow10(SCALE - |fracPart|));
    WrapLinear(Value(intPart), FACTOR, 0);
    WrapNegate(Magnitude(s));
    if neg {
      out := Wrap64(-out);
    }
    r := Ok(out);
  }

  // Scales the digits read to SCALE of them.
  method PadRight(n: int, digits: string) returns (frac: int)
    requires |digits| <= SCALE && n == Wrap64(Value(digits))
    ensures frac == Wrap64(Value(digits) * Pow10(SCALE - |digits|))
  {
    ghost var f := Value(digits);
    frac := n;
    var i := |digits|;
    while i < SCALE
      invariant |digits| <= i <= SCALE
      invariant frac == Wrap64(f * Pow10(i - |digits|))
    {
      PadStep(f, i - |digits|);
      WrapLinear(f * Pow10(i - |digits|), 10, 0);
      frac := Wrap64(frac * 10);
      i := i + 1;
    }
  }

  lemma ValueSnoc(s: string, i: nat)
    requires i < |s|
    ensures Value(s[..i + 1]) == 10 * Value(s[..i]) + DigitOf(s[i])
  {
    assert s[..i + 1][..i] == s[..i];
  }

  lemma PadStep(f: int, n: nat)
    ensures f * Pow10(n) * 10 == f * Pow10(n + 1)
  {
  }

  // Wrapping differs from its argument by a multiple of 2^64.
  lemma WrapBy(x: int) returns (k: int)
    ensures Wrap64(x) == x - k * TWO64 && Int64(Wrap64(x))
  {
    k := (x + TWO63) / TWO64;
  }

  // Two arguments that differ by a multiple of 2^64 wrap to the same value.
  lemma WrapSame(x: int, k: int)
    ensures Wrap64(x + k * TWO64) == Wrap64(x)
  {
    var a := WrapBy(x);
    var b := WrapBy(x + k * TWO64);
    assert (a + k - b) * TWO64 == Wrap64(x + k * TWO64) - Wrap64(x);
  }

  lemma WrapLinear(x: int, m: int, d: int)
    ensures Wrap64(Wrap64(x) * m) == Wrap64(x * m)
    ensures Wrap64(Wrap64(Wrap64(x) * m) + d) == Wrap64(m * x + d)
  {
    var k := WrapBy(x);
    assert Wrap64(x) * m == x * m + (-k * m) * TWO64;
    WrapSame(x * m, -k * m);
    var j := WrapBy(x * m);
    assert Wrap64(x * m) + d == m * x + d + (-j) * TWO64;
    WrapSame(m * x + d, -j);
  }

  lemma WrapSum(x: int, y: int)
    ensures Wrap64(Wrap64(x) + Wrap64(y)) == Wrap64(x + y)
  {
    var j := WrapBy(x);
    var k := WrapBy(y);
    assert Wrap64(x) + Wrap64(y) == x + y + (-j - k) * TWO64;
    WrapSame(x + y, -j - k);
  }

  lemma WrapNegate(x: int)
    ensures Wrap64(-Wrap64(x)) == Wrap64(-x)
  {
    var k := WrapBy(x);
    assert -Wrap64(x) == -x + k * TWO64;
    WrapSame(-x, k);
  }

  // The parser returns the meaning exactly when the meaning fits in 64 bits.
  lemma ParseIsExact(s: string)
    requires Fault(s) == None
    ensures Parse(s) == Ok(Meaning(s)) <==> Int64(Meaning(s))
  {
    var k := WrapBy(Meaning(s));
    if Int64(Meaning(s)) {
      assert k == 0;
    }
  }

  // ---- truncation ----

  lemma {:induction false} ValueConcat(a: string, b: string)
    ensures Value(a + b) == Value(a) * Pow10(|b|) + Value(b)
  {
    if b == "" {
      assert a + b == a;
    } else {
      var n := |b| - 1;
      ValueConcat(a, b[..n]);
      assert (a + b)[..|a + b| - 1] == a + b[..n];
      calc {
        Value(a + b);
        10 * (Value(a) * Pow10(n) + Value(b[..n])) + DigitOf(b[n]);
        Value(a) * Pow10(n) * 10 + (10 * Value(b[..n]) + DigitOf(b[n]));
        { PadStep(Value(a), n); }
        Value(a) * Pow10(n + 1) + Value(b);
      }
    }
  }

  lemma {:induction false} ValueBounds(s: string)
    requires AllDigits(s)
    ensures 0 <= Value(s) < Pow10(|s|)
  {
    if s != "" { ValueBounds(s[..|s| - 1]); }
  }

  lemma {:induction false} PowSum(m: nat, n: nat)
    ensures Pow10(m + n) == Pow10(m) * Pow10(n) && Pow10(n) > 0
  {
    if m == 0 {
      if n > 0 { PowSum(0, n - 1); }
    } else {
      PowSum(m - 1, n);
    }
  }

  // The magnitude is the decimal times 10^SCALE, rounded toward zero: with N all the digits as
  // one number and f of them after the dot, it is the floor of N * 10^SCALE / 10^f.
  lemma MagnitudeTruncates(u: string)
    requires AllDigits(IntPart(u)) && AllDigits(FracPart(u))
    ensures var N, f := Value(IntPart(u) + FracPart(u)), |FracPart(u)|;
      Magnitude(u) * Pow10(f) <= N * Pow10(SCALE) < (Magnitude(u) + 1) * Pow10(f)
  {
    hide Value, Pow10, IntPart, FracPart;
    var a, frac := IntPart(u), FracPart(u);
    var f := |frac|;
    var A := Value(a);
    ValueConcat(a, frac);
    assert Pow10(SCALE) == FACTOR && Pow10(0) == 1 by { PowerOfScale(); }
    if f <= SCALE {
      ShortFraction(A, Value(frac), f);
    } else {
      var k, rest := frac[..SCALE], frac[SCALE..];
      assert frac == k + rest;
      ValueConcat(k, rest);
      ValueBounds(rest);
      LongFraction(A, Value(k), Value(rest), f - SCALE);
    }
  }

  // v is the signed decimal of s times 10^SCALE, rounded toward zero. Every digit counts.
  predicate Truncates(s: string, v: int) {
    var t := TrimSpace(s);
    var u := Unsigned(t);
    var a, N, f := (if v < 0 then -v else v), Value(IntPart(u) + FracPart(u)), |FracPart(u)|;
    && a * Pow10(f) <= N * Pow10(SCALE) < (a + 1) * Pow10(f)
    && if Negative(t) then v <= 0 else v >= 0
  }

  // A faultless text parses to its truncated decimal exactly when that fits in 64 bits, and there
  // is only one such number.
  lemma ParseTruncates(s: string, v: int)
    requires Fault(s) == None && AllDigits(FracPart(Unsigned(TrimSpace(s))))
    ensures Truncates(s, v) <==> v == Meaning(s)
    ensures Truncates(s, v) ==> (Parse(s) == Ok(v) <==> Int64(v))
  {
    hide TrimSpace, Value, Pow10, Dot, Kept, Wrap64;
    var u := Unsigned(TrimSpace(s));
    var X, f := Value(IntPart(u) + FracPart(u)) * Pow10(SCALE), |FracPart(u)|;
    ParseIsExact(s);
    MagnitudeTruncates(u);
    MagnitudeNatural(u);
    PowSum(0, f);
    OneFloor(Magnitude(u), if v < 0 then -v else v, X, Pow10(f));
  }

  lemma MagnitudeNatural(u: string)
    requires AllDigits(IntPart(u)) && AllDigits(FracPart(u))
    ensures Magnitude(u) >= 0
  {
    ValueBounds(IntPart(u));
    ValueBounds(Kept(FracPart(u)));
    PowSum(0, SCALE - |Kept(FracPart(u))|);
  }

  lemma OneFloor(a: int, b: int, x: int, k: int)
    requires k > 0 && a * k <= x < (a + 1) * k
    ensures b * k <= x < (b + 1) * k <==> b == a
  {
    if b < a { StepUp(b, a, k); }
    if b > a { StepUp(a, b, k); }
  }

  lemma StepUp(a: int, b: int, k: int)
    requires k > 0 && a < b
    ensures (a + 1) * k <= b * k
  {
    assert b * k == (a + 1) * k + (b - a - 1) * k;
  }

  lemma PowerOfScale()
    ensures Pow10(SCALE) == FACTOR && Pow10(0) == 1
  {
    assert Pow10(4) == 10000;
    PowSum(4, 4);
  }

  lemma ShortFraction(A: int, B: int, f: nat)
    requires f <= SCALE
    ensures var M := A * FACTOR + B * Pow10(SCALE - f);
      M * Pow10(f) == (A * Pow10(f) + B) * FACTOR < (M + 1) * Pow10(f)
  {
    hide Pow10;
    PowSum(SCALE - f, f);
    PowerOfScale();
    Shares(A, B, Pow10(SCALE - f), Pow10(f));
  }

  lemma Shares(A: int, B: int, x: int, y: int)
    requires x * y == FACTOR && y > 0
    ensures var M := A * FACTOR + B * x; M * y == (A * y + B) * FACTOR < (M + 1) * y
  {
    var M := A * FACTOR + B * x;
    assert M * y == A * y * FACTOR + B * (x * y);
    assert (M + 1) * y == M * y + y;
  }

  lemma LongFraction(A: int, K: int, R: int, m: nat)
    requires 0 <= R < Pow10(m)
    ensures var f := SCALE + m; var N := A * Pow10(f) + (K * Pow10(m) + R);
      (A * FACTOR + K) * Pow10(f) <= N * FACTOR < (A * FACTOR + K + 1) * Pow10(f)
  {
    PowSum(SCALE, m);
    PowerOfScale();
    var p := Pow10(m);
    var N := A * Pow10(SCALE + m) + (K * p + R);
    assert Pow10(SCALE + m) == FACTOR * p;
    assert N == (A * FACTOR + K) * p + R;
    assert N * FACTOR == (A * FACTOR + K) * (FACTOR * p) + R * FACTOR;
    assert (A * FACTOR + K + 1) * (FACTOR * p) == (A * FACTOR + K) * (FACTOR * p) + FACTOR * p;
  }

  // ---- the printer ----

  function Digit(d: int): char
    requires 0 <= d < 10
  {
    ('0' as int + d) as char
  }

  function Decimal(n: nat): string {
    if n < 10 then [Digit(n)] else Decimal(n / 10) + [Digit(n % 10)]
  }

  function Signed(n: int): string {
    if n < 0 then "-" + Decimal(-n) else Decimal(n)
  }

  function Zeros(n: nat): string {
    if n == 0 then "" else "0" + Zeros(n - 1)
  }

  // Zero-padded to a width; the sign of a negative number counts.
  function Padded(n: int, width: nat): string {
    var d := Decimal(if n < 0 then -n else n);
    var w := if n < 0 && width > 0 then width - 1 else width;
    var p := if |d| < w then Zeros(w - |d|) + d else d;
    if n < 0 then "-" + p else p
  }

  // Division and remainder of the source truncate toward zero.
  function Quot(a: int, b: int): int
    requires b > 0
  {
    if a >= 0 then a / b else -((-a) / b)
  }

  function Rem(a: int, b: int): int
    requires b > 0
  {
    a - Quot(a, b) * b
  }

  function FormatFixed(v: int): string {
    var a := if v < 0 then Wrap64(-v) else v;
    var out := Signed(Quot(a, FACTOR)) + "." + Padded(Rem(a, FACTOR), SCALE);
    if v < 0 then "-" + out else out
  }

  lemma {:induction false} DecimalValue(n: nat)
    ensures AllDigits(Decimal(n)) && Decimal(n) != "" && Value(Decimal(n)) == n
  {
    if n < 10 {
      assert Decimal(n)[..0] == "";
    } else {
      DecimalValue(n / 10);
      var d := Decimal(n / 10);
      assert Decimal(n)[..|Decimal(n)| - 1] == d;
    }
  }

  lemma {:induction false} DecimalLength(n: nat, w: nat)
    requires n < Pow10(w) && w > 0
    ensures |Decimal(n)| <= w
  {
    assert Pow10(1) == 10 * Pow10(0);
    if n >= 10 { DecimalLength(n / 10, w - 1); }
  }

  lemma {:induction false} ZerosValue(n: nat, d: string)
    requires AllDigits(d)
    ensures |Zeros(n)| == n && AllDigits(Zeros(n) + d) && Value(Zeros(n) + d) == Value(d)
  {
    hide Value, Pow10;
    if n == 0 {
      assert Zeros(0) + d == d;
    } else {
      ZerosValue(n - 1, d);
      assert Zeros(n) + d == "0" + (Zeros(n - 1) + d);
      ValueConcat("0", Zeros(n - 1) + d);
      assert Value("0") == 0 by { ZeroDigit(); }
    }
  }

  lemma ZeroDigit()
    ensures Value("0") == 0
  {
    assert "0"[..0] == "";
  }

  lemma PaddedValue(n: int)
    requires 0 <= n < FACTOR
    ensures |Padded(n, SCALE)| == SCALE && AllDigits(Padded(n, SCALE)) && Value(Padded(n, SCALE)) == n
  {
    PowerOfScale();
    DecimalValue(n);
    DecimalLength(n, SCALE);
    var d := Decimal(n);
    if |d| < SCALE { ZerosValue(SCALE - |d|, d); }
  }

  lemma {:induction false} DotAfter(w: string, f: string)
    requires AllDigits(w)
    ensures Dot(w + "." + f) == |w|
  {
    if w == "" {
      assert (w + "." + f)[0] == '.';
    } else {
      assert (w + "." + f)[1..] == w[1..] + "." + f;
      DotAfter(w[1..], f);
    }
  }

  // The text of a number that is not negative.
  function Canonical(a: int): string {
    Signed(Quot(a, FACTOR)) + "." + Padded(Rem(a, FACTOR), SCALE)
  }

  lemma QuotRem(a: int)
    requires a >= 0
    ensures Quot(a, FACTOR) == a / FACTOR && Rem(a, FACTOR) == a % FACTOR
    ensures a / FACTOR * FACTOR + a % FACTOR == a && 0 <= a % FACTOR < FACTOR
  {
  }

  // An unsigned text of digits, a dot and SCALE digits parses to its magnitude.
  lemma CanonicalMagnitude(a: int)
    requires a >= 0
    ensures var u := Canonical(a);
      && Magnitude(u) == a && AllDigits(IntPart(u)) && AllDigits(Kept(FracPart(u))) && IntPart(u) != ""
      && u != "" && IsDigit(u[0]) && IsDigit(u[|u| - 1])
  {
    hide Decimal, Padded, Value, Pow10, Dot, Quot, Rem;
    QuotRem(a);
    var w, f := Decimal(a / FACTOR), Padded(a % FACTOR, SCALE);
    var u := w + "." + f;
    DecimalValue(a / FACTOR);
    PaddedValue(a % FACTOR);
    DotAfter(w, f);
    assert IntPart(u) == w && FracPart(u) == f;
    PowerOfScale();
    assert u[|u| - 1] == f[SCALE - 1];
  }

  // Printing and parsing back is the identity on every 64-bit value but the smallest, whose
  // negation overflows: it prints two signs and does not parse.
  lemma RoundTrip(v: int)
    requires Int64(v)
    ensures Parse(FormatFixed(v)) == Ok(v) <==> v != MIN64
    ensures v == MIN64 ==> Parse(FormatFixed(v)) == Err(BadDigit)
  {
    if v == MIN64 {
      SmallestPrints();
    } else {
      OthersRoundTrip(v);
    }
  }

  lemma OthersRoundTrip(v: int)
    requires Int64(v) && v != MIN64
    ensures Parse(FormatFixed(v)) == Ok(v)
  {
    hide Parse, FormatFixed, Fault, Meaning, Canonical, Magnitude, Wrap64;
    var a := if v < 0 then -v else v;
    FormatIs(v);
    CanonicalMagnitude(a);
    CanonicalMeans(Canonical(a), v < 0);
    ParseIsExact(FormatFixed(v));
  }

  lemma FormatIs(v: int)
    requires Int64(v) && v != MIN64
    ensures FormatFixed(v) == if v < 0 then "-" + Canonical(-v) else Canonical(v)
  {
    hide Signed, Padded, Quot, Rem;
    assert Wrap64(-v) == -v;
  }

  // A canonical text, with a minus sign or without, has no fault and means its magnitude.
  lemma CanonicalMeans(u: string, neg: bool)
    requires u != "" && IsDigit(u[0]) && IsDigit(u[|u| - 1]) && IntPart(u) != ""
    requires AllDigits(IntPart(u)) && AllDigits(Kept(FracPart(u)))
    ensures var s := if neg then "-" + u else u;
      Fault(s) == None && Meaning(s) == if neg then -Magnitude(u) else Magnitude(u)
  {
    hide Magnitude, TrimSpace, Unsigned, Negative, IntPart, FracPart, Kept, AllDigits, IsDigit;
    SignedText(u, neg);
  }

  // A sign before a text that starts and ends in a digit.
  lemma SignedText(u: string, neg: bool)
    requires u != "" && IsDigit(u[0]) && IsDigit(u[|u| - 1])
    ensures var s := if neg then "-" + u else u;
      TrimSpace(s) == s && Unsigned(s) == u && Negative(s) == neg && s != ""
  {
    var s := if neg then "-" + u else u;
    assert s[|s| - 1] == u[|u| - 1];
    if neg { assert s[1..] == u; }
  }

  // A second sign is a bad digit.
  lemma TwoSigns(u: string)
    requires |u| >= 2 && u[0] == '-' && IsDigit(u[|u| - 1])
    ensures Parse("-" + u) == Err(BadDigit)
  {
    hide Wrap64, Value, Pow10, Magnitude;
    var s := "-" + u;
    assert s[1..] == u && s[|s| - 1] == u[|u| - 1];
    assert TrimSpace(s) == s && Unsigned(s) == u;
    assert IntPart(u)[0] == '-';
  }

  lemma SmallestPrints()
    ensures Parse(FormatFixed(MIN64)) == Err(BadDigit)
  {
    hide Parse, Decimal, Padded, Value;
    assert Wrap64(-MIN64) == MIN64;
    assert Quot(MIN64, FACTOR) == -92233720368 && Rem(MIN64, FACTOR) == -54775808;
    var w, f := Decimal(92233720368), Padded(-54775808, SCALE);
    var u := "-" + w + "." + f;
    PaddedEnds(-54775808);
    assert FormatFixed(MIN64) == "-" + u;
    assert u[|u| - 1] == f[|f| - 1];
    TwoSigns(u);
  }

  lemma PaddedEnds(n: int)
    ensures Padded(n, SCALE) != "" && IsDigit(Padded(n, SCALE)[|Padded(n, SCALE)| - 1])
  {
    var d := Decimal(if n < 0 then -n else n);
    DecimalValue(if n < 0 then -n else n);
    assert Padded(n, SCALE)[|Padded(n, SCALE)| - 1] == d[|d| - 1];
  }

  // ---- JSON ----

  function MarshalJSON(v: int): string {
    "\"" + FormatFixed(v) + "\""
  }

  // Surrounding quotes are optional. A single quote character is cut from position 1 to 0.
  function UnmarshalJSON(b: string): Parsed {
    if b == "" then Err(EmptyJson)
    else if b[0] == '"' && b[|b| - 1] == '"' then
      if |b| == 1 then Panic else Parse(b[1..|b| - 1])
    else Parse(b)
  }

  lemma NoQuote(v: int)
    ensures FormatFixed(v) != "" && FormatFixed(v)[0] != '"'
  {
    var q := Quot(if v < 0 then Wrap64(-v) else v, FACTOR);
    DecimalValue(if q < 0 then -q else q);
  }

  // A quoted or a bare number reads back, again for every value but the smallest.
  lemma JSONRoundTrip(v: int)
    requires Int64(v)
    ensures UnmarshalJSON(MarshalJSON(v)) == Ok(v) <==> v != MIN64
    ensures UnmarshalJSON(FormatFixed(v)) == Ok(v) <==> v != MIN64
  {
    var s, b := FormatFixed(v), MarshalJSON(v);
    assert b[1..|b| - 1] == s;
    RoundTrip(v);
    NoQuote(v);
  }
}
