/** Money values and the total of an order, down to the minor units that are
    charged (src/domain/value-objects/money.ts, src/domain/entities/order.ts:38-63,
    src/infrastructure/payment/stripe-adapter.ts:42 and :96). */
module Money {
  import opened Runs
  import opened Decimal

  /** The amount is always a text with two decimal places. */
  datatype Money = Money(amount: string, currency: string)

  function UpperChar(c: char): char {
    if 'a' <= c <= 'z' then 'A' + (c - 'a') else c
  }

  function Upper(s: string): string {
    seq(|s|, i requires 0 <= i < |s| => UpperChar(s[i]))
  }

  /** The constructor; None is the thrown error. */
  function New(amount: string, currency: string): Option<Money> {
    if |currency| != 3 then None
    else
      match Parse(amount)
      case NotANumber => None
      case Number(negative, d) =>
        if negative then None else Some(Money(FixedText(ToFixed(d, 2)), Upper(currency)))
  }

  function Zero(currency: string): Option<Money> {
    New("0.00", currency)
  }

  /** `new Decimal(this.amount)` */
  function Magnitude(m: Money): Option<Dec> {
    match Parse(m.amount)
    case NotANumber => None
    case Number(_, d) => Some(d)
  }

  function Add(a: Money, b: Money): Option<Money> {
    if a.currency != b.currency || Magnitude(a).None? || Magnitude(b).None? then None
    else New(FixedText(ToFixed(Plus(Magnitude(a).value, Magnitude(b).value), 2)), a.currency)
  }

  function Multiply(m: Money, factor: Dec): Option<Money> {
    if Magnitude(m).None? then None
    else New(FixedText(ToFixed(Times(Magnitude(m).value, factor), 2)), m.currency)
  }

  /** `new Decimal(amount).times(100).toFixed(0)`, the charged or refunded amount. */
  function MinorUnits(m: Money): Option<string> {
    if Magnitude(m).None? then None
    else Some(DigitsText(ToFixed(Times(Magnitude(m).value, Dec(100, 0)), 0)))
  }

  // ---------------------------------------------------------- order totals

  /** A line of a create-order request. */
  datatype Line = Line(quantity: int, unitPrice: string)

  /** The price of a line, or the error of createOrderItem. */
  function LineTotal(line: Line, currency: string): Option<Money> {
    if line.quantity <= 0 then None
    else
      var unit := New(line.unitPrice, currency);
      if unit.None? then None else Multiply(unit.value, Dec(line.quantity, 0))
  }

  /** `items.reduce` with `Money.zero(currency)` */
  function Total(lines: seq<Line>, currency: string): Option<Money> {
    if lines == [] then Zero(currency)
    else
      var sum := Total(lines[..|lines| - 1], currency);
      var line := LineTotal(lines[|lines| - 1], currency);
      if sum.None? || line.None? then None else Add(sum.value, line.value)
  }

  /** createOrder refuses an empty list. */
  function OrderTotal(lines: seq<Line>, currency: string): Option<Money> {
    if lines == [] then None else Total(lines, currency)
  }

  // ---------------------------------------------------------------- errors

  /** Digits, with at most one point among them or beside them; no sign. */
  ghost predicate PlainNumber(s: string) {
    exists i :: 0 <= i <= |s| && AllDigits(s[..i]) &&
      if i == |s| then i > 0 else s[i] == '.' && AllDigits(s[i + 1..]) && |s| > 1
  }

  lemma MagnitudeIff(s: string)
    ensures ParseMagnitude(s).Some? <==> PlainNumber(s)
  {
    var p := PointAt(s);
    if PlainNumber(s) {
      var i :| 0 <= i <= |s| && AllDigits(s[..i]) &&
        if i == |s| then i > 0 else s[i] == '.' && AllDigits(s[i + 1..]) && |s| > 1;
      forall j | 0 <= j < i ensures s[j] != '.' { assert s[..i][j] == s[j]; }
    }
    if ParseMagnitude(s).Some? {
      assert AllDigits(s[..p]);
    }
  }

  lemma PlainIsUnsigned(s: string)
    requires PlainNumber(s)
    ensures s != [] && s[0] != '-'
  {
    var i :| 0 <= i <= |s| && AllDigits(s[..i]) &&
      if i == |s| then i > 0 else s[i] == '.' && AllDigits(s[i + 1..]) && |s| > 1;
    if i > 0 { assert IsDigit(s[..i][0]); }
  }

  /** The constructor accepts exactly a three-letter currency with a plain number, and
      stores its cents: those it has, or the nearest, halves up. */
  lemma NewIff(amount: string, currency: string)
    ensures New(amount, currency).Some? <==> |currency| == 3 && PlainNumber(amount)
    ensures New(amount, currency).Some? ==> ParseMagnitude(amount).Some?
    ensures New(amount, currency).Some? ==> exists c: nat ::
      New(amount, currency).value == Money(FixedText(c), Upper(currency)) && IsCentsOf(c, ParseMagnitude(amount).value)
  {
    MagnitudeIff(amount);
    if PlainNumber(amount) { PlainIsUnsigned(amount); }
    if New(amount, currency).Some? {
      var d := ParseMagnitude(amount).value;
      CentsAreNearest(d);
      assert New(amount, currency).value == Money(FixedText(ToFixed(d, 2)), Upper(currency));
    }
  }

  /** The number of cents, exact or to the nearest, halves up. */
  ghost predicate IsCentsOf(c: nat, d: Dec) {
    if d.scale <= 2 then c == d.coef * Pow10(2 - d.scale)
    else var unit := Pow10(d.scale - 2); 2 * d.coef - unit < 2 * (c * unit) <= 2 * d.coef + unit
  }

  lemma CentsAreNearest(d: Dec)
    ensures IsCentsOf(ToFixed(d, 2), d)
  {
    if d.scale > 2 { NearestIsClose(d.coef, Pow10(d.scale - 2)); }
  }

  /** Lower-case letters become the capitals, everything else stays. */
  lemma UpperIs(c: char)
    ensures forall i :: 0 <= i < 26 && c == "abcdefghijklmnopqrstuvwxyz"[i] ==> UpperChar(c) == "ABCDEFGHIJKLMNOPQRSTUVWXYZ"[i]
    ensures !('a' <= c <= 'z') ==> UpperChar(c) == c
  {
  }

  /** Amounts in different currencies are not added. */
  lemma OneCurrency(a: Money, b: Money)
    ensures Add(a, b).Some? ==> a.currency == b.currency && Add(a, b).value.currency == Upper(a.currency)
  {
  }

  lemma LineRefuses(line: Line, currency: string)
    requires line.quantity <= 0 || !PlainNumber(line.unitPrice) || |currency| != 3
    ensures LineTotal(line, currency) == None
  {
    NewIff(line.unitPrice, currency);
  }

  lemma {:induction false} TotalNeedsLines(lines: seq<Line>, currency: string, i: nat)
    requires i < |lines| && LineTotal(lines[i], currency) == None
    ensures Total(lines, currency) == None
  {
    if i < |lines| - 1 { TotalNeedsLines(lines[..|lines| - 1], currency, i); }
  }

  /** An order without lines, with a quantity that is not positive, or with a price that
      is no plain number has no total. */
  lemma OrderTotalRefuses(lines: seq<Line>, currency: string)
    requires lines == [] || |currency| != 3
      || exists i :: 0 <= i < |lines| && (lines[i].quantity <= 0 || !PlainNumber(lines[i].unitPrice))
    ensures OrderTotal(lines, currency) == None
  {
    if lines != [] {
      var i :| 0 <= i < |lines| && (|currency| != 3 || lines[i].quantity <= 0 || !PlainNumber(lines[i].unitPrice));
      LineRefuses(lines[i], currency);
      TotalNeedsLines(lines, currency, i);
    }
  }

  // ------------------------------------------------------------- exactness

  lemma UpperTwice(s: string)
    ensures |Upper(s)| == |s| && Upper(Upper(s)) == Upper(s)
  {
  }

  /** A text that toFixed(2) wrote is constructed as it stands. */
  lemma NewOfFixed(c: nat, currency: string)
    requires |currency| == 3
    ensures New(FixedText(c), currency) == Some(Money(FixedText(c), Upper(currency)))
    ensures Magnitude(Money(FixedText(c), currency)) == Some(Dec(c, 2))
  {
    FixedRoundTrip(c);
  }

  lemma FixedTextInjective(a: nat, b: nat)
    requires FixedText(a) == FixedText(b)
    ensures a == b
  {
    FixedRoundTrip(a);
    FixedRoundTrip(b);
  }

  /** An amount rounded to 28 digits is the amount exactly when the rounding changed nothing. */
  lemma RoundedTextIff(n: nat, currency: string)
    requires |currency| == 3 && Upper(currency) == currency
    ensures ToFixed(RoundSig(Dec(n, 2)), 2) == RoundSig(Dec(n, 2)).coef
    ensures New(FixedText(RoundSig(Dec(n, 2)).coef), currency) == Some(Money(FixedText(n), currency))
       <==> RoundSig(Dec(n, 2)) == Dec(n, 2)
  {
    var r := RoundSig(Dec(n, 2)).coef;
    assert Pow10(0) == 1;
    NewOfFixed(r, currency);
    if FixedText(r) == FixedText(n) { FixedTextInjective(r, n); }
  }

  /** Adding two amounts gives their exact sum exactly when 28 digits can hold it. */
  lemma AddExactIff(a: nat, b: nat, currency: string)
    requires |currency| == 3 && Upper(currency) == currency
    ensures Add(Money(FixedText(a), currency), Money(FixedText(b), currency)) == Some(Money(FixedText(a + b), currency))
       <==> RoundSig(Dec(a + b, 2)) == Dec(a + b, 2)
  {
    NewOfFixed(a, currency);
    NewOfFixed(b, currency);
    SumAligned(a, b);
    RoundedTextIff(a + b, currency);
  }

  lemma SumAligned(a: nat, b: nat)
    ensures Plus(Dec(a, 2), Dec(b, 2)) == RoundSig(Dec(a + b, 2))
  {
    assert Pow10(0) == 1;
  }

  /** Multiplying by a whole number is exact exactly when 28 digits can hold the product. */
  lemma MultiplyExactIff(c: nat, q: nat, currency: string)
    requires |currency| == 3 && Upper(currency) == currency
    ensures Multiply(Money(FixedText(c), currency), Dec(q, 0)) == Some(Money(FixedText(c * q), currency))
       <==> RoundSig(Dec(c * q, 2)) == Dec(c * q, 2)
  {
    NewOfFixed(c, currency);
    assert Times(Dec(c, 2), Dec(q, 0)) == RoundSig(Dec(c * q, 2));
    RoundedTextIff(c * q, currency);
  }

  /** The price texts the request schema lets through: digits, point, two digits. */
  predicate PriceText(s: string) {
    |s| >= 4 && AllDigits(s[..|s| - 3]) && s[|s| - 3] == '.' && AllDigits(s[|s| - 2..])
  }

  /** Its value in cents. */
  function Cents(s: string): nat
    requires PriceText(s)
  {
    DigitsValue(s[..|s| - 3] + s[|s| - 2..])
  }

  lemma PriceIsCents(s: string, currency: string)
    requires PriceText(s) && |currency| == 3
    ensures New(s, currency) == Some(Money(FixedText(Cents(s)), Upper(currency)))
  {
    var whole, fraction := s[..|s| - 3], s[|s| - 2..];
    assert s == whole + (['.'] + fraction);
    ReadBack(whole, fraction);
    assert s[0] == whole[0] && IsDigit(s[0]);
    assert Pow10(0) == 1;
  }

  /** The integer sum of quantity times unit cents. */
  function CentsOf(lines: seq<Line>): nat
    requires forall i :: 0 <= i < |lines| ==> lines[i].quantity > 0 && PriceText(lines[i].unitPrice)
  {
    if lines == [] then 0
    else
      var last := lines[|lines| - 1];
      CentsOf(lines[..|lines| - 1]) + last.quantity * Cents(last.unitPrice)
  }

  /** A product that 28 digits hold. */
  lemma MultiplyWithinBound(c: nat, q: nat, product: nat, currency: string)
    requires |currency| == 3 && Upper(currency) == currency && product == c * q && product < TEN_TO_28
    ensures Multiply(Money(FixedText(c), currency), Dec(q, 0)) == Some(Money(FixedText(product), currency))
  {
    RoundSigExactIff(Dec(product, 2));
    MultiplyExactIff(c, q, currency);
  }

  lemma Commutes(a: nat, b: nat)
    ensures a * b == b * a
  {
  }

  lemma LineExact(line: Line, currency: string)
    requires line.quantity > 0 && PriceText(line.unitPrice) && |currency| == 3
    requires line.quantity * Cents(line.unitPrice) < TEN_TO_28
    ensures LineTotal(line, currency) == Some(Money(FixedText(line.quantity * Cents(line.unitPrice)), Upper(currency)))
  {
    var c := Cents(line.unitPrice);
    PriceIsCents(line.unitPrice, currency);
    UpperTwice(currency);
    Commutes(line.quantity, c);
    MultiplyWithinBound(c, line.quantity, line.quantity * c, Upper(currency));
  }

  /** The fold of multiply and add is the integer sum whenever the sum has at most
      28 digits. */
  lemma {:induction false} TotalExact(lines: seq<Line>, currency: string)
    requires |currency| == 3
    requires forall i :: 0 <= i < |lines| ==> lines[i].quantity > 0 && PriceText(lines[i].unitPrice)
    requires CentsOf(lines) < TEN_TO_28
    ensures Total(lines, currency) == Some(Money(FixedText(CentsOf(lines)), Upper(currency)))
  {
    if lines == [] {
      assert FixedText(0) == "0.00";
      NewOfFixed(0, currency);
    } else {
      var init, last := lines[..|lines| - 1], lines[|lines| - 1];
      var cents := last.quantity * Cents(last.unitPrice);
      assert cents >= 0;
      TotalExact(init, currency);
      LineExact(last, currency);
      UpperTwice(currency);
      RoundSigExactIff(Dec(CentsOf(init) + cents, 2));
      AddExactIff(CentsOf(init), cents, Upper(currency));
    }
  }

  const PRICE_BOUND := 200000000000000000000000   // 2 * 10^23 cents

  /** A request within the schema's bounds. */
  ghost predicate WithinSchema(lines: seq<Line>) {
    && |lines| <= 50
    && forall i :: 0 <= i < |lines| ==>
         && 1 <= lines[i].quantity <= 1000
         && PriceText(lines[i].unitPrice) && Cents(lines[i].unitPrice) < PRICE_BOUND
  }

  lemma {:induction false} CentsBounded(lines: seq<Line>)
    requires forall i :: 0 <= i < |lines| ==>
      && 1 <= lines[i].quantity <= 1000
      && PriceText(lines[i].unitPrice) && Cents(lines[i].unitPrice) < PRICE_BOUND
    ensures CentsOf(lines) <= |lines| * (1000 * (PRICE_BOUND - 1))
  {
    if lines != [] {
      var init, last := lines[..|lines| - 1], lines[|lines| - 1];
      CentsBounded(init);
      ProductBounded(last.quantity, Cents(last.unitPrice), 1000, PRICE_BOUND - 1);
    }
  }

  lemma ProductBounded(a: nat, b: nat, x: nat, y: nat)
    requires a <= x && b <= y
    ensures a * b <= x * y
  {
    assert a * b <= x * b <= x * y;
  }

  lemma SchemaSumFits(lines: seq<Line>)
    requires WithinSchema(lines)
    ensures CentsOf(lines) < TEN_TO_28
  {
    CentsBounded(lines);
    ProductBounded(|lines|, 1000 * (PRICE_BOUND - 1), 50, 1000 * (PRICE_BOUND - 1));
  }

  /** Exact order total with a real bound, end to end: the stored total, its JSON
      form read back by the saga, and the minor units charged and refunded are all
      the integer sum of quantity times unit cents. */
  lemma ChargedExactly(lines: seq<Line>, currency: string)
    requires lines != [] && WithinSchema(lines) && |currency| == 3
    ensures OrderTotal(lines, currency) == Some(Money(FixedText(CentsOf(lines)), Upper(currency)))
    ensures var total := Money(FixedText(CentsOf(lines)), Upper(currency));
      && New(total.amount, total.currency) == Some(total)
      && MinorUnits(total) == Some(DigitsText(CentsOf(lines)))
      && DigitsValueOf(DigitsText(CentsOf(lines))) == Some(CentsOf(lines))
  {
    SchemaSumFits(lines);
    TotalExact(lines, currency);
    UpperTwice(currency);
    NewOfFixed(CentsOf(lines), Upper(currency));
    MinorUnitsExact(CentsOf(lines), Upper(currency));
    DigitsRoundTrip(CentsOf(lines));
  }

  function DigitsValueOf(s: string): Option<nat> {
    if AllDigits(s) then Some(DigitsValue(s)) else None
  }

  /** Times 100 and toFixed(0) give the cents, although the product may have thirty digits. */
  lemma MinorUnitsExact(c: nat, currency: string)
    requires c < TEN_TO_28 && |currency| == 3
    ensures MinorUnits(Money(FixedText(c), currency)) == Some(DigitsText(c))
  {
    NewOfFixed(c, currency);
    var d := Dec(c * 100, 2);
    HundredfoldIsExact(c);
    assert HalfUp(c * 100, 100) == c;
    assert Pow10(2) == 100 by { assert Pow10(1) == 10 * Pow10(0); assert Pow10(2) == 10 * Pow10(1); }
    assert Times(Dec(c, 2), Dec(100, 0)) == RoundSig(d) == d;
  }

  lemma SmallPowers()
    ensures Pow10(0) == 1 && Pow10(1) == 10 && Pow10(2) == 100
    ensures Pow10(29) == 10 * TEN_TO_28 && Pow10(30) == 100 * TEN_TO_28
  {
    TenTo28();
    assert Pow10(1) == 10 * Pow10(0);
    assert Pow10(2) == 10 * Pow10(1);
    assert Pow10(29) == 10 * Pow10(28);
    assert Pow10(30) == 10 * Pow10(29);
  }

  lemma HundredfoldIsExact(c: nat)
    requires c < TEN_TO_28
    ensures RoundSig(Dec(c * 100, 2)) == Dec(c * 100, 2)
  {
    AtMostThirtyDigits(c);
    RoundSigExactIff(Dec(c * 100, 2));
    if Digits(c * 100) > PRECISION {
      HundredfoldLeavesNoRest(c, Digits(c * 100) - PRECISION);
    }
  }

  lemma AtMostThirtyDigits(c: nat)
    requires c < TEN_TO_28
    ensures Digits(c * 100) <= PRECISION + 2
  {
    SmallPowers();
    DigitsExceed(c * 100, 30);
  }

  lemma HundredfoldLeavesNoRest(c: nat, k: nat)
    requires k <= 2
    ensures (c * 100) % Pow10(k) == 0
  {
    assert Pow10(1) == 10 * Pow10(0);
    assert Pow10(2) == 10 * Pow10(1);
    assert (c * 100) % 10 == 0;
  }

  /** The bound is sharp: one cent more than 10^28 is lost even on a single item. */
  lemma CentLostBeyondBound(currency: string)
    requires |currency| == 3 && Upper(currency) == currency
    ensures Multiply(Money(FixedText(TEN_TO_28 + 1), currency), Dec(1, 0)) == Some(Money(FixedText(TEN_TO_28), currency))
    ensures FixedText(TEN_TO_28 + 1) != FixedText(TEN_TO_28)
  {
    var c := TEN_TO_28 + 1;
    NewOfFixed(c, currency);
    NewOfFixed(TEN_TO_28, currency);
    CentRoundedAway();
    assert Times(Dec(c, 2), Dec(1, 0)) == RoundSig(Dec(c, 2));
    if FixedText(c) == FixedText(TEN_TO_28) { FixedTextInjective(c, TEN_TO_28); }
  }

  lemma CentRoundedAway()
    ensures RoundSig(Dec(TEN_TO_28 + 1, 2)) == Dec(TEN_TO_28, 2)
    ensures ToFixed(Dec(TEN_TO_28, 2), 2) == TEN_TO_28
  {
    TwentyNineDigits();
    assert Pow10(0) == 1 && Pow10(1) == 10 * Pow10(0);
    assert HalfUp(TEN_TO_28 + 1, 10) * 10 == TEN_TO_28;
  }

  lemma TwentyNineDigits()
    ensures Digits(TEN_TO_28 + 1) == PRECISION + 1
  {
    SmallPowers();
    TenTo28();
    DigitsExceed(TEN_TO_28 + 1, 28);
    DigitsExceed(TEN_TO_28 + 1, 29);
  }
}
