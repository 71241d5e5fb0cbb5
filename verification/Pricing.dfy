/** When a receipt line counts as a price, and which price it is. */
module Pricing {
  import opened Basics

  datatype LineType = Product | Deposit | Fee | Discount | Return | UnknownType

  datatype Basis = PerPackage | PerKg | PerLitre | UnknownBasis

  datatype Condition = NoCondition | Member | MultiBuy | Coupon | UnknownCondition

  datatype DatePrecision = OnDate | OnDateTime | UnknownPrecision

  datatype QuantityUnit = Each | Kg | G | L | Ml | UnknownUnit

  datatype IdentityStatus = ConfirmedIdentity | InheritedIdentity | UnresolvedIdentity

  datatype Reason =
    | NonProductLine | NonNok | NoIdentity | Conditional | ConditionUnknown | DiscountUnknown
    | UnitUnknown | QuantityUnknown | NonPositiveQuantity | DateUnknown
    | StoreUnknown | StoreNotBranch | BasisMismatch

  datatype PricingLine = PricingLine(
    lineType: LineType, nok: bool, quantity: Option<real>, unit: QuantityUnit, packages: Option<real>,
    net: Option<real>, condition: Condition, product: Option<Id>, identity: Option<IdentityStatus>,
    precision: DatePrecision)

  /** Prices are stored with six decimals, so in millionths of a krone. */
  datatype PricingResult = PricingResult(
    eligible: bool, price: Option<int>, basis: Basis, reasons: seq<Reason>, eligibleDated: bool)

  // ---- Rounding ----

  /** Halves round away from zero. */
  function HalfUp(x: real): int {
    if x >= 0.0 then (x + 0.5).Floor else -((-x + 0.5).Floor)
  }

  /** Halves round to the even neighbour. */
  function HalfEven(x: real): int {
    var down := x.Floor;
    var part := x - down as real;
    if part < 0.5 || (part == 0.5 && down % 2 == 0) then down else down + 1
  }

  function UnitPrice(net: real, divisor: real): int
    requires divisor > 0.0
  {
    HalfUp(net / divisor * 1000000.0)
  }

  /** A displayed amount, in hundredths of a krone. */
  function Displayed(price: int): int {
    HalfUp(price as real / 10000.0)
  }

  /** Grams in kilograms and millilitres in litres, rounded to three decimals; other units as they are. */
  function Normalized(quantity: real, unit: QuantityUnit): real {
    match unit
    case G => HalfUp(quantity) as real / 1000.0
    case Ml => HalfUp(quantity) as real / 1000.0
    case _ => quantity
  }

  // ---- Evaluation ----

  function BasisAndDivisor(line: PricingLine): (Basis, Option<real>, Option<Reason>) {
    if line.unit.UnknownUnit? then (UnknownBasis, None, Some(UnitUnknown))
    else
      var basis := match line.unit
                   case Each => PerPackage
                   case Kg => PerKg
                   case G => PerKg
                   case _ => PerLitre;
      var divisor :=
        if line.unit.Each? then (if line.packages.Some? then line.packages else line.quantity)
        else if line.quantity.None? then None
        else Some(Normalized(line.quantity.value, line.unit));
      if divisor.None? then (basis, None, Some(QuantityUnknown))
      else if divisor.value <= 0.0 then (basis, None, Some(NonPositiveQuantity))
      else (basis, divisor, None)
  }

  function When(condition: bool, reason: Reason): seq<Reason> {
    if condition then [reason] else []
  }

  function QualificationReasons(line: PricingLine): seq<Reason> {
    When(!line.lineType.Product?, NonProductLine)
    + When(!line.nok, NonNok)
    + When(line.product.None? || line.identity != Some(ConfirmedIdentity), NoIdentity)
    + (match line.condition
       case UnknownCondition => [ConditionUnknown]
       case NoCondition => []
       case _ => [Conditional])
  }

  /** The reasons that do not concern the date. */
  function OwnReasons(line: PricingLine): seq<Reason> {
    var quantityReason := BasisAndDivisor(line).2;
    QualificationReasons(line)
    + (if quantityReason.Some? then [quantityReason.value] else [])
    + When(line.net.None?, DiscountUnknown)
  }

  function EvaluateLine(line: PricingLine): PricingResult {
    var (basis, divisor, _) := BasisAndDivisor(line);
    var reasons := OwnReasons(line);
    var price := if divisor.Some? && divisor.value > 0.0 && line.net.Some? && NonNok !in reasons
                 then Some(UnitPrice(line.net.value, divisor.value)) else None;
    var eligible := reasons == [];
    var dated := !line.precision.UnknownPrecision?;
    PricingResult(eligible, price, basis, reasons + When(!dated, DateUnknown), eligible && dated)
  }

  // ---- What the evaluation promises ----

  /** The divisor a usable line divides its total by. */
  ghost predicate Divides(line: PricingLine, divisor: real) {
    && divisor > 0.0
    && match line.unit
       case UnknownUnit => false
       case Each => line.packages.GetOr(line.quantity.GetOr(0.0)) == divisor
       case G => line.quantity.Some? && divisor * 1000.0 == HalfUp(line.quantity.value) as real
       case Ml => line.quantity.Some? && divisor * 1000.0 == HalfUp(line.quantity.value) as real
       case _ => line.quantity == Some(divisor)
  }

  /** A line is eligible exactly when it is an ordinary, identified product in kroner with a positive
      quantity of a known unit and a known total; it then has a price and an owner's product. */
  lemma {:induction false} EligibleIff(line: PricingLine)
    ensures EvaluateLine(line).eligible <==>
              && line.lineType.Product? && line.nok && line.product.Some? && line.identity == Some(ConfirmedIdentity)
              && line.condition.NoCondition? && line.net.Some? && exists d :: Divides(line, d)
    ensures EvaluateLine(line).eligible ==> EvaluateLine(line).price.Some? && line.product.Some?
    ensures EvaluateLine(line).eligibleDated <==> EvaluateLine(line).eligible && !line.precision.UnknownPrecision?
  {
    var (basis, divisor, quantityReason) := BasisAndDivisor(line);
    if divisor.Some? { assert Divides(line, divisor.value); }
    if d :| Divides(line, d) { assert divisor == Some(d); }
  }

  /** The stored price times the quantity gives the total back, to half a millionth per unit. */
  lemma {:induction false} PriceIsNear(line: PricingLine, d: real)
    requires EvaluateLine(line).price.Some? && Divides(line, d) && line.net.Some?
    ensures var exact, price := line.net.value, EvaluateLine(line).price.value as real;
            -0.5 * d <= price * d - exact * 1000000.0 <= 0.5 * d
  {
    assert BasisAndDivisor(line).1 == Some(d);
    UnitPriceIsNear(line.net.value, d);
  }

  lemma {:induction false} UnitPriceIsNear(net: real, d: real)
    requires d > 0.0
    ensures -0.5 * d <= UnitPrice(net, d) as real * d - net * 1000000.0 <= 0.5 * d
  {
    var exact := net / d * 1000000.0;
    Rescaled(UnitPrice(net, d) as real, exact, net, d);
  }

  lemma {:induction false} Rescaled(price: real, exact: real, net: real, d: real)
    requires d > 0.0 && exact == net / d * 1000000.0 && -0.5 <= price - exact <= 0.5
    ensures -0.5 * d <= price * d - net * 1000000.0 <= 0.5 * d
  {
    assert net / d * d == net;
    assert exact * d == net * 1000000.0;
    assert (price - exact) * d == price * d - net * 1000000.0;
    ProductAtLeastZero(0.5 - (price - exact), d);
    ProductAtLeastZero(0.5 + (price - exact), d);
    assert (0.5 - (price - exact)) * d == 0.5 * d - (price - exact) * d;
    assert (0.5 + (price - exact)) * d == 0.5 * d + (price - exact) * d;
  }

  lemma {:induction false} ProductAtLeastZero(a: real, b: real)
    requires a >= 0.0 && b >= 0.0
    ensures a * b >= 0.0
  {
  }

  lemma {:induction false} HalfUpMonotone(x: real, y: real)
    requires x <= y
    ensures HalfUp(x) <= HalfUp(y)
  {
  }

  /** A larger total for the same quantity never gives a lower price, so lowest price is lowest cost. */
  lemma {:induction false} PriceMonotone(line: PricingLine, more: real)
    requires EvaluateLine(line).price.Some? && line.net.Some? && line.net.value <= more
    ensures EvaluateLine(line.(net := Some(more))).price.Some?
    ensures EvaluateLine(line).price.value <= EvaluateLine(line.(net := Some(more))).price.value
  {
    var d := BasisAndDivisor(line).1.value;
    assert BasisAndDivisor(line.(net := Some(more))) == BasisAndDivisor(line);
    Ratio(line.net.value, more, d);
    HalfUpMonotone(line.net.value / d * 1000000.0, more / d * 1000000.0);
  }

  lemma {:induction false} Ratio(a: real, b: real, d: real)
    requires a <= b && d > 0.0
    ensures a / d * 1000000.0 <= b / d * 1000000.0
  {
    assert a / d <= b / d;
  }

  /** Weighing in grams or in kilograms gives the same line, when the grams are whole. */
  lemma {:induction false} GramsAreKilograms(line: PricingLine, grams: int)
    requires line.unit == G && line.quantity == Some(grams as real)
    ensures EvaluateLine(line) == EvaluateLine(line.(unit := Kg, quantity := Some(grams as real / 1000.0)))
  {
    assert HalfUp(grams as real) == grams;
    var kilograms := line.(unit := Kg, quantity := Some(grams as real / 1000.0));
    assert BasisAndDivisor(line) == BasisAndDivisor(kilograms);
    assert QualificationReasons(line) == QualificationReasons(kilograms);
  }
}
